# Authorization token store — a Dafny model

This project models the authorization token store of an event-ingestion
service (`authorization/service.go`). Every inbound event carries a token. The
store keeps two token mappings, token value to the list of origins that token
admits (an empty list admits every origin):

- c2s, for client-to-server events;
- s2s, for server-to-server events.

Each mapping is built at start-up from a configured source string. The string
is classified in a fixed priority order:

1. a URL (`http://` or `https://` anywhere) is fetched remotely;
2. otherwise a `file://` anywhere names a local file, and its first occurrence
   is cut out to give the path;
3. otherwise a bracketed string is parsed as an inline JSON array;
4. otherwise the setting is read as a plain list of token strings.

Parsing trims each token value, drops blank ones and lets a later duplicate
overwrite an earlier one. Construction refuses a zero reload interval. It
installs a generated fallback token in both mappings when both start empty.
Afterwards each mapping is only ever replaced whole.

Modules:

- `Results` (results.dfy): `Option` and `Result`.
- `Text` (text.dfy): Go's `strings.TrimSpace`, `Index`/`Contains`,
  `HasPrefix`, `HasSuffix` and `Replace(s, old, new, 1)`, with white space as
  Go's `unicode.IsSpace` defines it.
- `Tokens` (tokens.dfy): `Token`, the map-building loop `Collect`,
  `parseFromBytes` and `loadFromConfig`.
- `Sources` (sources.dfy): the dispatch of `load`.
- `Authorization` (service.dfy): the `Service` record, `NewService`, the
  lookups, `GetAllTokens` and the two update operations.

Outside collaborators are parameters:

- The JSON decoder is the function `Loaders.decode`. It yields a `Decoded`
  value: an array of token objects, else an array of strings, else neither.
- The initial results of the remote and file watchers are the functions
  `Loaders.fromHttp` and `Loaders.fromFile`.
- Configuration values are fields of `Config`.
- The generated fallback token is the `generated` argument.

Two details of the code are reproduced as written:

- Only a reload interval equal to zero is refused; a negative interval is
  accepted (`NegativeIntervalAccepted`).
- `file://` is removed at its first occurrence anywhere in the string, not
  only as a prefix (`FilePathRoundTrip`, `FileSchemeRemovedAnywhere`).

A consequence of the dispatch order, stated as `InlineArrayWithUrlIsRemote`:
an inline JSON array that mentions `https://` anywhere, for instance in an
origin, is treated as a URL to fetch rather than parsed.

## Model

| member | source | states |
|---|---|---|
| Text.TrimLeftSpec | authorization/service.go:117 | trimming the front cuts only white space and stops at the first character that is not white space |
| Text.TrimRightSpec | authorization/service.go:143 | trimming the back cuts only white space and stops at the last character that is not white space |
| Text.TrimSpace | authorization/service.go:143 | a non-empty trim neither starts nor ends with white space |
| Text.TrimSpaceStrips | authorization/service.go:117 | the trim is a contiguous piece of the input with only white space cut from either end |
| Text.TrimSpaceFixedPoint | authorization/service.go:143 | a string is its own trim exactly when it is empty or neither starts nor ends with white space |
| Text.TrimSpaceIdempotent | authorization/service.go:143 | trimming a trimmed value changes nothing, so every stored key equals its own trim |
| Text.TrimSpaceBlank | authorization/service.go:118 | the trim is empty exactly when the value is all white space, so exactly the blank values are dropped |
| Text.Index | authorization/service.go:102-104 | the result is the first position where the pattern occurs, and there is none exactly when it never occurs |
| Text.ReplaceFirstRoundTrip | authorization/service.go:105 | replacing the first occurrence keeps the text before it, and putting the pattern back restores the input |
| Tokens.CollectHas | authorization/service.go:141-147 | a key is present exactly when it is non-blank and some token value trims to it |
| Tokens.CollectKeys | authorization/service.go:141-147 | the keys are exactly the non-blank trimmed token values |
| Tokens.CollectWellFormed | authorization/service.go:141-147 | every key is non-empty and equals its own trim |
| Tokens.CollectLastWins | authorization/service.go:142-146 | each key maps to the origins of the last token with that trimmed value, copied verbatim |
| Tokens.CollectUnrestricted | authorization/service.go:136-138 | when no token carries origins, every key maps to empty origins |
| Tokens.PlainMap | authorization/service.go:136-147 | a string list gives the non-blank trimmed entries as keys, each with empty origins |
| Tokens.LoadFromConfig | authorization/service.go:113-124 | never fails; keys are exactly the trimmed non-blank entries, each mapped to empty origins |
| Tokens.ParseFromBytes | authorization/service.go:126-150 | fails exactly when both decodings fail, with an error naming the source; otherwise keys are the trimmed non-blank values, with empty origins for a string array |
| Tokens.ParseLastDuplicateWins | authorization/service.go:141-147 | for a token-object array, the last duplicate's origins are the ones kept |
| Sources.Classify | authorization/service.go:100-111 | the four source kinds in priority order, each as an if-and-only-if; a URL or inline array is the string itself; a file path is one scheme shorter |
| Sources.FilePathRoundTrip | authorization/service.go:104-105 | the file path is the source with its first `file://` removed, wherever it stands |
| Sources.FileSchemeRemovedAnywhere | authorization/service.go:104-105 | `etc/file://tokens.json` resolves to the file `etc/tokens.json` |
| Sources.InlineArrayWithUrlIsRemote | authorization/service.go:102-107 | a bracketed string containing `https://` is dispatched as a remote URL, not parsed |
| Sources.Load | authorization/service.go:100-111 | each source kind is served by its own loader; the configured list is read as a list |
| Sources.LoadFailsOnlyThroughLoaders | authorization/service.go:100-111 | a load fails exactly when its remote or file loader fails or its inline array decodes as neither shape; a configured list never fails |
| Sources.LocalLoadWellFormed | authorization/service.go:106-109 | inline and configured-list loads yield only non-empty, trimmed keys |
| Sources.LoadIgnoresListUnlessConfigList | authorization/service.go:108-109 | the list reading of the setting is consulted only for the config-list kind |
| Authorization.NewService | authorization/service.go:26-56 | a zero interval fails first; otherwise c2s and then s2s load failures are reported; success installs both maps unchanged, or the generated token alone in both when both are empty |
| Authorization.NegativeIntervalAccepted | authorization/service.go:29-32 | a negative interval is not refused |
| Authorization.NewServiceNeverEmpty | authorization/service.go:44-53 | a successfully built store always knows at least one token |
| Authorization.FallbackTokenOnly | authorization/service.go:44-50 | with both sources empty, the only token is the generated one, found by both lookups with empty origins |
| Authorization.NewServiceWellFormed | authorization/service.go:34-53 | with local sources and a trimmed non-empty generated token, every key of the store is non-empty and trimmed |
| Authorization.GetC2SOrigins | authorization/service.go:58-64 | found exactly when the token is a c2s key, with its origins; otherwise empty and not found |
| Authorization.GetS2SOrigins | authorization/service.go:80-86 | found exactly when the token is an s2s key, with its origins; otherwise empty and not found |
| Authorization.GetAllTokens | authorization/service.go:66-78 | the keys are exactly the union of the c2s and s2s keys, all marked true |
| Authorization.EnumeratedIffFound | authorization/service.go:58-86 | a token is enumerated exactly when one of the two lookups finds it |
| Authorization.UpdateC2S | authorization/service.go:88-92 | c2s becomes the new mapping and s2s is unchanged |
| Authorization.UpdateS2S | authorization/service.go:94-98 | s2s becomes the new mapping and c2s is unchanged |
| Authorization.LookupAfterUpdateC2S | authorization/service.go:88-92 | after a c2s update, c2s lookups answer from the new mapping only and s2s lookups are as before |
| Authorization.LookupAfterUpdateS2S | authorization/service.go:94-98 | after an s2s update, s2s lookups answer from the new mapping only and c2s lookups are as before |
| Authorization.UpdatesIndependent | authorization/service.go:88-98 | updates of different kinds commute, and a later update of one kind hides an earlier one |
| Authorization.InlineLookupExample | authorization/service.go:106-107 | with c2s source `[{"token":"tok1","origins":["a.com"]}]`, `tok1` is found with `["a.com"]` and `unknown` is not found |

## Left out

- JSON decoding is an input (`Decoded`), not modelled. It stands for the outcome of the two decoding attempts, tried in order.
- Tokens.ParseFromBytes: when decoding into token objects fails, Go keeps the partially decoded elements and appends the string tokens after them. The model starts from an empty list instead. Whenever the string-array decoding succeeds, every element was a string or null. The partial elements are then tokens with an empty value, which the blank filter drops, so the resulting map is the same.
- The watcher and the byte sources (`Watcher`, `resources.LoadFromHttp`, `resources.LoadFromFile`) are not part of this model. Only their initial result is modelled, as `Loaders.fromHttp` and `Loaders.fromFile`. The periodic background reload is left out, together with keeping the old mapping when a reload fails. Both belong to the watcher.
- Configuration reads through viper are inputs (`Config`). How viper splits a single string into a list is not modelled.
- `uuid.New()` is the `generated` argument. `log.Println` is output only.
- The read/write lock is left out. Each update is one atomic replacement in sequential state. Concurrent interleavings are not modelled.
- Go's distinction between a nil and an empty slice is not modelled. Both are the empty sequence.
- Strings are sequences of Unicode scalar values. Go works on UTF-8 bytes, and invalid UTF-8 is not modelled.
- Authorization.NewService: the zero-interval check comes ahead of the loads; the loads are pure here, so that order cannot be observed.
- The logging, rolling-writer, server-to-server preprocessor and user-agent files are not part of this model. They hold output formatting, file rotation and calls into resolvers that are not shown.
