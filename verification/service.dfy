/** The authorization token store of authorization/service.go: two token
    mappings, client-to-server (c2s) and server-to-server (s2s), built once at
    start-up and afterwards replaced whole. */
module Authorization {
  import opened Results
  import opened Text
  import opened Tokens
  import opened Sources

  /** The store. Each field is only ever replaced as a whole. */
  datatype Service = Service(c2s: TokenMap, s2s: TokenMap)

  /** The configuration `NewService` reads: the reload interval in seconds and,
      per token kind, the source string and the same setting read as a list. */
  datatype Config = Config(
    reloadSec: int,
    c2sSource: string,
    c2sEntries: seq<string>,
    s2sSource: string,
    s2sEntries: seq<string>)

  datatype ServiceError =
    | EmptyReloadInterval
    | C2SLoadFailed(cause: LoadError)
    | S2SLoadFailed(cause: LoadError)

  function LoadC2S(cfg: Config, io: Loaders): Result<TokenMap, LoadError> {
    Load(cfg.c2sSource, cfg.c2sEntries, io)
  }

  function LoadS2S(cfg: Config, io: Loaders): Result<TokenMap, LoadError> {
    Load(cfg.s2sSource, cfg.s2sEntries, io)
  }

  /** `NewService`. A zero interval is refused before anything is loaded (a
      negative one is accepted); then c2s is loaded, then s2s, and the first
      failure is reported. When both loaded mappings are empty, `generated`
      becomes a token of both kinds without origin restriction. */
  function NewService(cfg: Config, io: Loaders, generated: string): (r: Result<Service, ServiceError>)
    ensures cfg.reloadSec == 0 ==> r == Err(EmptyReloadInterval)
    ensures r.Ok? <==> cfg.reloadSec != 0 && LoadC2S(cfg, io).Ok? && LoadS2S(cfg, io).Ok?
    ensures cfg.reloadSec != 0 && LoadC2S(cfg, io).Err? ==>
              r == Err(C2SLoadFailed(LoadC2S(cfg, io).error))
    ensures cfg.reloadSec != 0 && LoadC2S(cfg, io).Ok? && LoadS2S(cfg, io).Err? ==>
              r == Err(S2SLoadFailed(LoadS2S(cfg, io).error))
    ensures r.Ok? && (LoadC2S(cfg, io).value != map[] || LoadS2S(cfg, io).value != map[]) ==>
              r.value == Service(LoadC2S(cfg, io).value, LoadS2S(cfg, io).value)
    ensures r.Ok? && LoadC2S(cfg, io).value == map[] && LoadS2S(cfg, io).value == map[] ==>
              r.value.c2s == r.value.s2s == map[generated := []]
  {
    if cfg.reloadSec == 0 then Err(EmptyReloadInterval)
    else
      match LoadC2S(cfg, io)
      case Err(e) => Err(C2SLoadFailed(e))
      case Ok(c2s) =>
        match LoadS2S(cfg, io)
        case Err(e) => Err(S2SLoadFailed(e))
        case Ok(s2s) =>
          if |c2s| == 0 && |s2s| == 0 then
            Ok(Service(c2s[generated := []], s2s[generated := []]))
          else
            Ok(Service(c2s, s2s))
  }

  /** `GetC2SOrigins`: the origins of a client-to-server token and whether it
      is known. An unknown token gives no origins. */
  function GetC2SOrigins(s: Service, token: string): (r: (seq<string>, bool))
    ensures r.1 <==> token in s.c2s
    ensures r.1 ==> r.0 == s.c2s[token]
    ensures !r.1 ==> r.0 == []
  {
    if token in s.c2s then (s.c2s[token], true) else ([], false)
  }

  /** `GetS2SOrigins`: the same lookup in the server-to-server mapping. */
  function GetS2SOrigins(s: Service, token: string): (r: (seq<string>, bool))
    ensures r.1 <==> token in s.s2s
    ensures r.1 ==> r.0 == s.s2s[token]
    ensures !r.1 ==> r.0 == []
  {
    if token in s.s2s then (s.s2s[token], true) else ([], false)
  }

  /** `GetAllTokens`: every token of either kind, each marked `true`, built
      by walking the c2s keys and then the s2s keys. */
  method GetAllTokens(s: Service) returns (result: map<string, bool>)
    ensures forall t :: t in result <==> t in s.c2s || t in s.s2s
    ensures forall t | t in result :: result[t]
  {
    result := map[];
    var pending := s.c2s.Keys;
    while pending != {}
      invariant pending <= s.c2s.Keys
      invariant forall t :: t in result <==> t in s.c2s && t !in pending
      invariant forall t | t in result :: result[t]
      decreases pending
    {
      var t :| t in pending;
      result := result[t := true];
      pending := pending - {t};
    }
    pending := s.s2s.Keys;
    while pending != {}
      invariant pending <= s.s2s.Keys
      invariant forall t :: t in result <==> t in s.c2s || (t in s.s2s && t !in pending)
      invariant forall t | t in result :: result[t]
      decreases pending
    {
      var t :| t in pending;
      result := result[t := true];
      pending := pending - {t};
    }
  }

  /** `updateC2STokens`: installs a new c2s mapping whole; s2s is untouched. */
  function UpdateC2S(s: Service, tokens: TokenMap): (r: Service)
    ensures r.c2s == tokens
    ensures r.s2s == s.s2s
  {
    s.(c2s := tokens)
  }

  /** `updateS2STokens`: installs a new s2s mapping whole; c2s is untouched. */
  function UpdateS2S(s: Service, tokens: TokenMap): (r: Service)
    ensures r.s2s == tokens
    ensures r.c2s == s.c2s
  {
    s.(s2s := tokens)
  }

  /** After a c2s update every c2s lookup answers from the new mapping alone
      (a token only in the old one is gone) and every s2s lookup is as before. */
  lemma LookupAfterUpdateC2S(s: Service, tokens: TokenMap, token: string)
    ensures GetC2SOrigins(UpdateC2S(s, tokens), token)
              == (if token in tokens then (tokens[token], true) else ([], false))
    ensures GetS2SOrigins(UpdateC2S(s, tokens), token) == GetS2SOrigins(s, token)
  {
  }

  /** After an s2s update every s2s lookup answers from the new mapping alone
      and every c2s lookup is as before. */
  lemma LookupAfterUpdateS2S(s: Service, tokens: TokenMap, token: string)
    ensures GetS2SOrigins(UpdateS2S(s, tokens), token)
              == (if token in tokens then (tokens[token], true) else ([], false))
    ensures GetC2SOrigins(UpdateS2S(s, tokens), token) == GetC2SOrigins(s, token)
  {
  }

  /** Updates of the two kinds are independent: their order does not matter,
      and of two updates of one kind only the later one is visible. */
  lemma UpdatesIndependent(s: Service, a: TokenMap, b: TokenMap)
    ensures UpdateS2S(UpdateC2S(s, a), b) == UpdateC2S(UpdateS2S(s, b), a)
    ensures UpdateC2S(UpdateC2S(s, a), b) == UpdateC2S(s, b)
    ensures UpdateS2S(UpdateS2S(s, a), b) == UpdateS2S(s, b)
  {
  }

  /** A token is enumerated exactly when one of the two lookups finds it. */
  lemma EnumeratedIffFound(s: Service, token: string)
    ensures token in s.c2s.Keys + s.s2s.Keys <==> GetC2SOrigins(s, token).1 || GetS2SOrigins(s, token).1
  {
  }

  /** A store that was built successfully always knows at least one token. */
  lemma NewServiceNeverEmpty(cfg: Config, io: Loaders, generated: string)
    requires NewService(cfg, io, generated).Ok?
    ensures NewService(cfg, io, generated).value.c2s.Keys
              + NewService(cfg, io, generated).value.s2s.Keys != {}
  {
  }

  /** With nothing configured the store knows exactly one token, the
      generated one, found by both lookups with no origin restriction. */
  lemma FallbackTokenOnly(cfg: Config, io: Loaders, generated: string, token: string)
    requires cfg.reloadSec != 0
    requires LoadC2S(cfg, io) == Ok(map[]) && LoadS2S(cfg, io) == Ok(map[])
    ensures NewService(cfg, io, generated).Ok?
    ensures var s := NewService(cfg, io, generated).value;
            && s.c2s.Keys + s.s2s.Keys == {generated}
            && GetC2SOrigins(s, token) == (if token == generated then ([], true) else ([], false))
            && GetS2SOrigins(s, token) == GetC2SOrigins(s, token)
  {
  }

  /** Only the value zero is refused as a reload interval: a negative one
      goes on to load the token sources. */
  lemma NegativeIntervalAccepted(cfg: Config, io: Loaders, generated: string)
    requires cfg.reloadSec < 0
    requires LoadC2S(cfg, io).Ok? && LoadS2S(cfg, io).Ok?
    ensures NewService(cfg, io, generated).Ok?
  {
  }

  /** When both sources are local (inline arrays or configured lists) and the
      generated token is well formed, every key of the new store is well
      formed: non-empty and already trimmed. */
  lemma NewServiceWellFormed(cfg: Config, io: Loaders, generated: string)
    requires cfg.reloadSec != 0 && LoadC2S(cfg, io).Ok? && LoadS2S(cfg, io).Ok?
    requires Classify(cfg.c2sSource).InlineArray? || Classify(cfg.c2sSource).ConfigList?
    requires Classify(cfg.s2sSource).InlineArray? || Classify(cfg.s2sSource).ConfigList?
    requires WellFormedKey(generated)
    ensures NewService(cfg, io, generated).Ok?
    ensures WellFormed(NewService(cfg, io, generated).value.c2s)
    ensures WellFormed(NewService(cfg, io, generated).value.s2s)
  {
  }

  /** An inline c2s array with one token object. */
  const InlineExample := "[{\"token\":\"tok1\",\"origins\":[\"a.com\"]}]"

  /** A store whose c2s source is `InlineExample` finds `tok1` with its one
      origin and does not find any other token. */
  lemma InlineLookupExample(cfg: Config, io: Loaders, generated: string)
    requires cfg.reloadSec != 0 && cfg.c2sSource == InlineExample
    requires io.decode(InlineExample) == TokenArray([Token("tok1", ["a.com"])])
    requires LoadS2S(cfg, io).Ok?
    ensures NewService(cfg, io, generated).Ok?
    ensures GetC2SOrigins(NewService(cfg, io, generated).value, "tok1") == (["a.com"], true)
    ensures GetC2SOrigins(NewService(cfg, io, generated).value, "unknown") == ([], false)
  {
    InlineExampleIsInline();
    var ts := [Token("tok1", ["a.com"])];
    CollectSingleToken(ts);
    assert LoadC2S(cfg, io) == Ok(map["tok1" := ["a.com"]]);
  }

  lemma InlineExampleIsInline()
    ensures Classify(InlineExample) == InlineArray(InlineExample)
  {
    InlineExampleNoScheme();
    var s := InlineExample;
    assert s[0] == '[' && s[|s| - 1] == ']';
    assert s[..1] == [s[0]] && s[|s| - 1..] == [s[|s| - 1]];
  }

  lemma InlineExampleNoScheme()
    ensures !IsRemote(InlineExample) && !Contains(InlineExample, FileScheme)
  {
    var s := InlineExample;
    assert forall i | 0 <= i < |s| :: s[i] != 'h' && s[i] != 'f';
    NotContainsWithoutFirstChar(s, HttpScheme);
    NotContainsWithoutFirstChar(s, HttpsScheme);
    NotContainsWithoutFirstChar(s, FileScheme);
  }

  lemma CollectSingleToken(ts: seq<Token>)
    requires ts == [Token("tok1", ["a.com"])]
    ensures Collect(ts) == map["tok1" := ["a.com"]]
  {
  }
}
