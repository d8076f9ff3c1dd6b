# gopokedex: the timed cache and the REPL front end, in Dafny

This project models two sequential cores of gopokedex, a command-line
Pokédex written in Go.

- **The timed byte cache** (`internal/pokecache/pokecache.go`). It maps
  string keys (request URLs) to entries. Each entry holds a creation time and
  a raw response body. `Add` inserts or overwrites an entry and stamps it
  with the current time. `Get` looks a key up. A background ticker removes
  every entry whose age is strictly greater than the cache's interval. In
  the model the clock is an explicit `now: int` parameter. One ticker tick is
  the method `Cache.Sweep(now)`, a loop over the keys that deletes the
  expired ones.
- **REPL input handling and paging** (`main.go`). `cleanInput` lower-cases a
  line and splits it into words. The read loop skips blank lines, takes the
  first word as the command and the rest as its parameters, and looks the
  command up in the `commands` table. The `map` and `mapb` commands page
  through location areas by following the `Next`/`Previous` links kept in
  `config`. The HTTP fetch is a parameter `api` that maps each requested URL
  to the fetched page's links or to a failure. The read loop takes one such
  endpoint per input line, so a URL may fail on one line and succeed on a
  later one, or come back with other links once its cache entry expired.

Files: `pokecache.dfy` (module `PokeCache`), `input.dfy` (module `Input`,
`cleanInput`), `repl.dfy` (module `Repl`: dispatch, paging, the read loop).

How the proofs are organised:

- `Cache` is a class with a `map<string, Entry>` field. `Add` and `Sweep`
  state the new map in terms of the old one. `Get` has no `modifies` clause,
  so it cannot change the map. The function `Survivors` gives what one tick
  keeps. Lemmas about it cover idempotence, composition of ticks and
  overwrite-resets-expiry.
- `Fields` (Go's `strings.Fields`) is characterised by the predicate `Spells`
  in both directions (`FieldsCharacterized`). A line yields the words `ws`
  exactly when the line is those words with white space around and between
  them. White space may be empty at the ends but not between two words.
- The paging commands are functions `MapStep`/`MapbStep`. The methods of
  `Config` are proved against them. The read loop `Run` is proved against
  the function `Session`, which replays the lines until the first `exit`.

## Model

| member | source | states |
|---|---|---|
| `PokeCache.Cache.constructor` | internal/pokecache/pokecache.go:18-26 | a new cache is empty and keeps the interval it was given; the interval must be positive |
| `PokeCache.Cache.Add` | internal/pokecache/pokecache.go:28-35 | the key now maps to the new payload stamped `now`; every other key keeps its entry or absence |
| `PokeCache.Cache.Get` | internal/pokecache/pokecache.go:37-46 | found exactly when the key is present; then the stored payload, otherwise an empty payload; the store is not modified |
| `PokeCache.Cache.Sweep` | internal/pokecache/pokecache.go:53-58 | after one tick exactly the entries with `now - createAt > interval` are gone; the rest keep payload and timestamp; no key is added |
| `PokeCache.SweepLeavesOnlyFresh` | internal/pokecache/pokecache.go:55-56 | right after a tick every remaining entry is at most `interval` old |
| `PokeCache.SweepsCompose` | internal/pokecache/pokecache.go:53-58 | a tick at `now1` then one at `now2 >= now1` leaves what a single tick at `now2` leaves |
| `PokeCache.SweepIdempotent` | internal/pokecache/pokecache.go:53-58 | two ticks at the same time leave the same store as one |
| `PokeCache.SweepCommutesWithFreshAdd` | internal/pokecache/pokecache.go:53-58 | adding an entry that is not expired before or after a tick gives the same store |
| `PokeCache.ExpiresAfterInterval` | internal/pokecache/pokecache.go:55-56 | an entry stored at `t` is removed by any tick later than `t + interval` |
| `PokeCache.OverwriteResetsExpiry` | internal/pokecache/pokecache.go:31-34 | after two writes to a key, a tick within the interval of the second write keeps the key with the second payload and time |
| `PokeCache.NewCacheMisses` | internal/pokecache/pokecache.go:19-21 | every lookup in a fresh cache misses with an empty payload |
| `PokeCache.AddThenGet` | internal/pokecache/pokecache.go:28-46 | on any cache, `Add(k, v)` then `Get(k)` yields `(v, true)` |
| `PokeCache.OverwriteThenSweep` | internal/pokecache/pokecache.go:31-34 | on any cache, last write wins, and a tick within the interval of the last write keeps it |
| `PokeCache.AddSweepGet` | internal/pokecache/pokecache.go:53-58 | on any cache, an entry is served before the tick and missed after a tick later than its time plus the interval |
| `PokeCache.AddKeepsOtherKeys` | internal/pokecache/pokecache.go:31 | adding under one key leaves the lookup of any other key unchanged |
| `Input.ToLower` | main.go:107 | only capitals change, each to the same letter in lower case; the result has no capitals; white space keeps its positions |
| `Input.ToLowerKeepsLowerCase` | main.go:107 | lower-casing a line without capitals returns it unchanged |
| `Input.Word` | main.go:107 | the longest white-space-free prefix of the line, non-empty when the line starts with a word character |
| `Input.Fields` | main.go:107 | every field is non-empty and free of white space |
| `Input.CleanInput` | main.go:106-108 | every word is non-empty, free of white space and free of capitals |
| `Input.FieldsNoUpper` | main.go:107 | the fields of a line without capitals have no capitals |
| `Input.FieldsOfSpelling` | main.go:107 | words separated by white space come back exactly and in order; leading, trailing and repeated white space add no words |
| `Input.SpellsFields` | main.go:107 | every line is its fields with white space around and between them |
| `Input.FieldsCharacterized` | main.go:107 | `Fields(s) == ws` if and only if `s` spells `ws` with some white space |
| `Input.CleanInputOfSpelling` | main.go:106-108 | the words of a line are the words its lower-cased form spells |
| `Input.CleanInputEmptyIffBlank` | main.go:86-89 | a line yields no words exactly when it is empty or all white space |
| `Input.CleanInputTrimsSpaces` | repl_test.go:12-15 | `"  hello world  "` yields `hello`, `world` |
| `Input.CleanInputLowers` | repl_test.go:16-19 | `"baTatiNha Quando Nasce"` yields `batatinha`, `quando`, `nasce` |
| `Input.CleanInputCollapsesSpaces` | repl_test.go:20-23 | `"hello   World 2 "` yields `hello`, `world`, `2` |
| `Repl.Lookup` | main.go:94 | a command is found exactly when the word is its key in the table |
| `Repl.LookupName` | main.go:37-78 | each command is found under its own key |
| `Repl.ParseLine` | main.go:85-92 | a blank line is skipped exactly when it is empty or all white space; otherwise the command is word 0 and the parameters are the remaining words in order |
| `Repl.Dispatch` | main.go:85-100 | a blank line prompts again; a known first word invokes that command with the remaining words; an unknown one is reported |
| `Repl.DispatchInvokes` | main.go:91-95 | a line invokes command `c` with parameters `ps` if and only if its cleaned words are `c`'s key followed by `ps` |
| `Repl.DispatchIgnoresCase` | main.go:85-95 | `"  MAP "` invokes `map` with no parameters |
| `Repl.MapFetchesNext` | main.go:131 | `map` depends on the endpoint only through the `Next` URL |
| `Repl.MapbFetchesPrevious` | main.go:152 | `mapb` depends on the endpoint only through the `Previous` URL |
| `Repl.MapThenMapbReturns` | main.go:125-158 | when the next page links back, `map` then `mapb` returns to the links shown before |
| `Repl.MapbThenMapReturns` | main.go:125-158 | when the previous page links forward, `mapb` then `map` returns to the links shown before |
| `Repl.Config.constructor` | main.go:30-33 | the paging state starts with neither link |
| `Repl.Config.Map` | main.go:125-144 | on the last page (no next link, a previous one) nothing changes; otherwise the next link is fetched; on success both links become the page's; on failure nothing changes |
| `Repl.Config.Mapb` | main.go:146-165 | without a previous link nothing changes; otherwise the previous link is fetched; on success both links become the page's; on failure nothing changes |
| `Repl.BlankLineSkipped` | main.go:86-89 | inserting a blank line anywhere in the input does not change the paging state, whatever the endpoint answered meanwhile |
| `Repl.ExitEndsSession` | main.go:110-114 | nothing after an `exit` line is read, and the endpoint is not asked again |
| `Repl.MapRetriesAfterFailure` | main.go:131-138 | a failed `map` leaves the links alone, so a later `map` whose fetch succeeds shows the page |
| `Repl.Run` | main.go:83-103 | the read loop over the lines the scanner delivers, with line `i` served by the endpoint's `i`-th answers, leaves the state `Session` gives, and reports an exit exactly when some line is `exit` |

## Left out

- Concurrency: the ticker goroutine, the `sync.RWMutex` and the interleaving of sweeps with `Add`/`Get` (internal/pokecache/pokecache.go:29-30, 38-39, 49-61). Each operation runs alone, and one tick is one `Sweep` call. The source ranges over `data` without the lock and reads each entry from that unlocked iteration. The model does not reproduce that race.
- The wall clock (`time.Now`, `time.Since`): times are integers passed in by the caller.
- PokeCache.Cache.Sweep: one tick tests every entry against a single `now`. The source calls `time.Since` once per entry inside the range loop (internal/pokecache/pokecache.go:55), so entries visited later in Go's unspecified map order are tested against a slightly later time. The model does not capture that drift or its dependence on iteration order.
- PokeCache.Cache.Add: payloads are `seq<Byte>` values. In Go, `Add` stores the caller's slice (internal/pokecache/pokecache.go:31-33) and `Get` returns that same backing array (line 45), so a caller that writes into either slice changes the cached bytes. That aliasing is not modelled: `PokeCache.Cache.Get` always returns the bytes that were stored.
- internal/pokeapi/pokeapi.go as a whole: the HTTP GETs, JSON decoding and the process-wide cache instance. `api` stands for the location-area endpoint as it answers during one input line, and the sequence of them given to `Repl.Run` covers any mix of failures, cache hits and refetched pages. `None` stands for the default first-page URL that a nil link requests.
- Repl.Run: `lines` are the lines that `bufio.Scanner` delivers (main.go:83). When a line exceeds the scanner's 64 KiB token limit (`bufio.MaxScanTokenSize`), `Scan` returns false with `ErrTooLong` and the source's loop ends silently at that line, without running it or any later `exit`. The model does not capture that early stop or the byte-length threshold; a caller models it by passing only the lines before the long one. Likewise, a `catch` line whose Pokémon is fetched with a base experience of 0 (the JSON field `null` or missing) makes the integer division at main.go:200 panic, which ends the process: that line and every later one, `exit` included, never run. The model carries the session on past every `catch` line and does not capture that crash; a caller models it by passing only the lines before that `catch`.
- Printing and `os.Exit`. `exit` only ends the modelled session. `help` lists an unordered Go map and is modelled as a command that leaves the paging state alone.
- `commandExplore`, `commandCatch`, `commandInspect` and `commandPokedex`: they do not touch `config`. `catch` draws from `math/rand` and divides by an API-supplied value, so it has no deterministic contract. Their missing-parameter errors and the `pokedex` map are not modelled.
- Unicode: `ToLower` covers only `A`-`Z`. White space is the ASCII set `strings.Fields` tests (tab, newline, vertical tab, form feed, carriage return, space). Non-ASCII characters are word characters that lower-casing leaves alone. `strings.ToLower` and `strings.Fields` do more for non-ASCII input.
- A non-positive cache interval: the constructor requires a positive one, because `time.NewTicker` panics otherwise.
