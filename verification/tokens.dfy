/** Turning decoded payloads and configuration lists into a token mapping:
    `parseFromBytes` and `loadFromConfig` of authorization/service.go. */
module Tokens {
  import opened Results
  import opened Text

  /** One entry of a token payload: the token value and the origins it admits.
      Empty origins mean no origin restriction. */
  datatype Token = Token(value: string, origins: seq<string>)

  /** Token value to its origins. */
  type TokenMap = map<string, seq<string>>

  /** What the JSON decoder made of a payload, trying the two shapes in the
      order the source tries them: an array of token objects first, then an
      array of plain strings, and otherwise neither. */
  datatype Decoded =
    | TokenArray(tokens: seq<Token>)
    | StringArray(values: seq<string>)
    | Undecodable(cause: string)

  /** Why a token source could not be loaded. */
  datatype LoadError =
    | UnmarshalError(source: string, cause: string)
    | FetchError(location: string, cause: string)

  /** A well-formed key is non-empty and is its own trim. */
  predicate WellFormedKey(k: string) {
    k != [] && TrimSpace(k) == k
  }

  ghost predicate WellFormed(m: TokenMap) {
    forall k | k in m :: WellFormedKey(k)
  }

  /** Some token of `ts` trims to `k`. */
  ghost predicate Declares(ts: seq<Token>, k: string) {
    exists i | 0 <= i < |ts| :: TrimSpace(ts[i].value) == k
  }

  /** `ts[i]` is the last token of `ts` with its trimmed value. */
  ghost predicate LastDeclaration(ts: seq<Token>, i: int) {
    && 0 <= i < |ts|
    && forall j | i < j < |ts| :: TrimSpace(ts[j].value) != TrimSpace(ts[i].value)
  }

  /** The map-building loop: tokens are visited in order, each value is
      trimmed, blank values are skipped and a later token overwrites the
      origins of an earlier one with the same trimmed value. */
  function Collect(ts: seq<Token>): TokenMap
  {
    if ts == [] then map[]
    else
      var m := Collect(ts[..|ts| - 1]);
      var last := ts[|ts| - 1];
      var k := TrimSpace(last.value);
      if k != "" then m[k := last.origins] else m
  }

  /** `Collect(ts)` holds `k` exactly when `k` is a non-blank trimmed value of `ts`. */
  lemma {:induction false} CollectHas(ts: seq<Token>, k: string)
    ensures k in Collect(ts) <==> k != "" && Declares(ts, k)
  {
    if ts != [] {
      var ps := ts[..|ts| - 1];
      var last := TrimSpace(ts[|ts| - 1].value);
      CollectHas(ps, k);
      assert k in Collect(ts) <==> k in Collect(ps) || (last != "" && last == k);
      if Declares(ps, k) {
        var i :| 0 <= i < |ps| && TrimSpace(ps[i].value) == k;
        assert ts[i] == ps[i];
      }
      if Declares(ts, k) && last != k {
        var i :| 0 <= i < |ts| && TrimSpace(ts[i].value) == k;
        assert ps[i] == ts[i];
      }
    }
  }

  /** The keys of `Collect(ts)` are exactly the non-blank trimmed values of `ts`. */
  lemma CollectKeys(ts: seq<Token>)
    ensures forall k :: k in Collect(ts) <==> k != "" && Declares(ts, k)
  {
  }

  /** Every key of `Collect(ts)` is well formed. */
  lemma CollectWellFormed(ts: seq<Token>)
    ensures WellFormed(Collect(ts))
  {
  }

  /** The last token with a given non-blank trimmed value decides that key's
      origins, copied as they are. */
  lemma {:induction false} CollectLastWins(ts: seq<Token>, i: int)
    requires LastDeclaration(ts, i)
    requires TrimSpace(ts[i].value) != ""
    ensures TrimSpace(ts[i].value) in Collect(ts)
    ensures Collect(ts)[TrimSpace(ts[i].value)] == ts[i].origins
  {
    var ps := ts[..|ts| - 1];
    if i < |ts| - 1 {
      assert ps[i] == ts[i];
      forall j | i < j < |ps| ensures TrimSpace(ps[j].value) != TrimSpace(ps[i].value) {
        assert ps[j] == ts[j];
      }
      CollectLastWins(ps, i);
    }
  }

  /** When no token restricts origins, no key of the map does. */
  lemma {:induction false} CollectUnrestricted(ts: seq<Token>)
    requires forall i | 0 <= i < |ts| :: ts[i].origins == []
    ensures forall k | k in Collect(ts) :: Collect(ts)[k] == []
  {
    if ts != [] {
      var ps := ts[..|ts| - 1];
      assert forall i | 0 <= i < |ps| :: ps[i] == ts[i];
      CollectUnrestricted(ps);
    }
  }

  /** Plain strings as tokens without origins. */
  function PlainTokens(values: seq<string>): (ts: seq<Token>)
    ensures |ts| == |values|
    ensures forall i | 0 <= i < |values| :: ts[i] == Token(values[i], [])
  {
    seq(|values|, i requires 0 <= i < |values| => Token(values[i], []))
  }

  /** Some entry of `values` trims to `k`. */
  ghost predicate Lists(values: seq<string>, k: string) {
    exists i | 0 <= i < |values| :: TrimSpace(values[i]) == k
  }

  lemma PlainTokensDeclare(values: seq<string>, k: string)
    ensures Declares(PlainTokens(values), k) <==> Lists(values, k)
  {
  }

  /** A map from a list of plain token strings: keys are the non-blank trimmed
      entries, later duplicates collapse onto one key, origins are empty. */
  function PlainMap(values: seq<string>): (m: TokenMap)
    ensures forall k :: k in m <==> k != "" && Lists(values, k)
    ensures forall k | k in m :: m[k] == []
    ensures WellFormed(m)
  {
    var ts := PlainTokens(values);
    CollectKeys(ts);
    CollectUnrestricted(ts);
    CollectWellFormed(ts);
    forall k ensures Declares(ts, k) <==> Lists(values, k) {
      PlainTokensDeclare(values, k);
    }
    Collect(ts)
  }

  /** `loadFromConfig`: the configured list of token strings as a mapping.
      It has no failure case. */
  function LoadFromConfig(entries: seq<string>): (m: TokenMap)
    ensures forall k :: k in m <==> k != "" && Lists(entries, k)
    ensures forall k | k in m :: m[k] == []
    ensures WellFormed(m)
  {
    PlainMap(entries)
  }

  /** `parseFromBytes`: an array of token objects is collected as it is; an
      array of strings is collected as tokens without origins; anything else
      is an error naming the source. */
  function ParseFromBytes(source: string, payload: Decoded): (r: Result<TokenMap, LoadError>)
    ensures r.Err? <==> payload.Undecodable?
    ensures payload.Undecodable? ==> r.error == UnmarshalError(source, payload.cause)
    ensures r.Ok? ==> WellFormed(r.value)
    ensures payload.TokenArray? ==>
              forall k :: k in r.value <==> k != "" && Declares(payload.tokens, k)
    ensures payload.StringArray? ==>
              && (forall k :: k in r.value <==> k != "" && Lists(payload.values, k))
              && (forall k | k in r.value :: r.value[k] == [])
  {
    match payload
    case TokenArray(ts) =>
      CollectKeys(ts);
      CollectWellFormed(ts);
      Ok(Collect(ts))
    case StringArray(values) => Ok(PlainMap(values))
    case Undecodable(cause) => Err(UnmarshalError(source, cause))
  }

  /** For an array of token objects, each surviving key carries the origins of
      the last object with that trimmed value, verbatim. */
  lemma ParseLastDuplicateWins(source: string, ts: seq<Token>, i: int)
    requires LastDeclaration(ts, i)
    requires TrimSpace(ts[i].value) != ""
    ensures ParseFromBytes(source, TokenArray(ts)).Ok?
    ensures TrimSpace(ts[i].value) in ParseFromBytes(source, TokenArray(ts)).value
    ensures ParseFromBytes(source, TokenArray(ts)).value[TrimSpace(ts[i].value)] == ts[i].origins
  {
    CollectLastWins(ts, i);
  }
}
