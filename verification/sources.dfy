/** Resolving a configured token source (`load` in authorization/service.go):
    the source string is classified once and the matching loader runs. */
module Sources {
  import opened Results
  import opened Text
  import opened Tokens

  const HttpScheme := "http://"
  const HttpsScheme := "https://"
  const FileScheme := "file://"

  /** The name under which an inline array is reported when it fails to parse. */
  const InlineSourceName := "app config json array"

  /** Where the tokens of one kind come from. */
  datatype Source =
    | Remote(url: string)
    | File(path: string)
    | InlineArray(payload: string)
    | ConfigList

  predicate IsRemote(s: string) {
    Contains(s, HttpScheme) || Contains(s, HttpsScheme)
  }

  predicate IsBracketed(s: string) {
    HasPrefix(s, "[") && HasSuffix(s, "]")
  }

  /** The dispatch of `load`, in its priority order: a URL anywhere wins, then
      a `file://` anywhere (its first occurrence is cut out to give the path),
      then a bracketed inline array, and otherwise the configured list. */
  function Classify(s: string): (r: Source)
    ensures r.Remote? <==> IsRemote(s)
    ensures r.File? <==> !IsRemote(s) && Contains(s, FileScheme)
    ensures r.InlineArray? <==> !IsRemote(s) && !Contains(s, FileScheme) && IsBracketed(s)
    ensures r.ConfigList? <==> !IsRemote(s) && !Contains(s, FileScheme) && !IsBracketed(s)
    ensures r.Remote? ==> r.url == s
    ensures r.InlineArray? ==> r.payload == s
    ensures r.File? ==> |r.path| == |s| - |FileScheme|
  {
    if IsRemote(s) then Remote(s)
    else if Contains(s, FileScheme) then File(ReplaceFirst(s, FileScheme, ""))
    else if IsBracketed(s) then InlineArray(s)
    else ConfigList
  }

  /** The file path is the source with its first `file://` cut out, wherever
      it stood: putting the scheme back at the first occurrence gives back the
      configured string. */
  lemma FilePathRoundTrip(s: string)
    requires Classify(s).File?
    ensures var i := Index(s, FileScheme).value;
            var path := Classify(s).path;
            && path[..i] == s[..i]
            && s == path[..i] + FileScheme + path[i..]
            && forall j: nat | j < i :: !OccursAt(s, FileScheme, j)
  {
  }

  /** The external collaborators of `load`. `decode` is the JSON decoder
      applied to an inline array; `fromHttp` and `fromFile` give the initial
      mapping of a watched URL or file. */
  datatype Loaders = Loaders(
    decode: string -> Decoded,
    fromHttp: string -> Result<TokenMap, LoadError>,
    fromFile: string -> Result<TokenMap, LoadError>)

  /** `load`: the initial mapping of one token kind. `entries` is the
      configured value read as a list of strings. */
  function Load(source: string, entries: seq<string>, io: Loaders): (r: Result<TokenMap, LoadError>)
    ensures Classify(source).ConfigList? ==> r == Ok(LoadFromConfig(entries))
    ensures Classify(source).InlineArray? ==>
              r == ParseFromBytes(InlineSourceName, io.decode(source))
    ensures Classify(source).Remote? ==> r == io.fromHttp(source)
    ensures Classify(source).File? ==> r == io.fromFile(Classify(source).path)
  {
    match Classify(source)
    case Remote(url) => io.fromHttp(url)
    case File(path) => io.fromFile(path)
    case InlineArray(payload) => ParseFromBytes(InlineSourceName, io.decode(payload))
    case ConfigList => Ok(LoadFromConfig(entries))
  }

  /** A load fails only when the remote or file loader fails, or when an
      inline array is neither an array of tokens nor an array of strings. */
  lemma LoadFailsOnlyThroughLoaders(source: string, entries: seq<string>, io: Loaders)
    ensures Load(source, entries, io).Err? <==>
              match Classify(source)
              case Remote(url) => io.fromHttp(url).Err?
              case File(path) => io.fromFile(path).Err?
              case InlineArray(payload) => io.decode(payload).Undecodable?
              case ConfigList => false
  {
  }

  /** Loads that do not reach the network or a file yield well-formed keys. */
  lemma LocalLoadWellFormed(source: string, entries: seq<string>, io: Loaders)
    requires Classify(source).InlineArray? || Classify(source).ConfigList?
    requires Load(source, entries, io).Ok?
    ensures WellFormed(Load(source, entries, io).value)
  {
  }

  /** The configured list is consulted only when the source string names no
      other kind of source. */
  lemma LoadIgnoresListUnlessConfigList(source: string, e1: seq<string>, e2: seq<string>, io: Loaders)
    requires !Classify(source).ConfigList?
    ensures Load(source, e1, io) == Load(source, e2, io)
  {
  }

  /** An inline array that mentions a URL anywhere, for instance as an origin,
      is taken for a remote source and fetched rather than parsed. */
  lemma InlineArrayWithUrlIsRemote(s: string)
    requires IsBracketed(s) && Contains(s, HttpsScheme)
    ensures Classify(s) == Remote(s)
  {
  }

  /** A `file://` after other text is still a file source, with the scheme
      removed from the middle of the string. */
  lemma FileSchemeRemovedAnywhere()
    ensures Classify("etc/" + FileScheme + "tokens.json") == File("etc/tokens.json")
  {
    var s := "etc/" + FileScheme + "tokens.json";
    NotContainsWithoutFirstChar(s, HttpScheme);
    NotContainsWithoutFirstChar(s, HttpsScheme);
    assert s[4..11] == FileScheme;
    assert OccursAt(s, FileScheme, 4);
    forall j: nat | j < 4 ensures !OccursAt(s, FileScheme, j) {
      assert s[j..j + 7][0] == s[j];
    }
    assert Index(s, FileScheme) == Some(4);
    assert s[..4] + "" + s[11..] == "etc/tokens.json";
  }
}
