/**
 The read loop of main.go: each line is cleaned, blank lines are skipped,
 the first word picks a command from the `commands` table and the rest are
 its parameters. The `map` and `mapb` commands page through location areas
 by following the `Next` and `Previous` links kept in `config`.

 The location-area endpoint is a parameter `api`: for each requested URL it
 answers with the fetched page's links or with a failure (`None` asks for
 the first page, as a nil URL does). Its answers may change over a session
 (a transient failure, a page fetched again once its cache entry expired),
 so the read loop takes one endpoint per line. Printing is not modelled, and the
 commands other than `map`, `mapb` and `exit` leave the paging state alone.
 */
module Repl {
  import opened Input

  datatype Option<T> = None | Some(value: T)

  /** The entries of the `commands` table. */
  datatype Command = Exit | Help | Map | Mapb | Explore | Catch | Inspect | Pokedex

  /** The key of each command in the table. */
  function Name(c: Command): string
  {
    match c
    case Exit => "exit"
    case Help => "help"
    case Map => "map"
    case Mapb => "mapb"
    case Explore => "explore"
    case Catch => "catch"
    case Inspect => "inspect"
    case Pokedex => "pokedex"
  }

  /** `commands[name]`: the command whose key is `name`, if there is one. */
  function Lookup(name: string): (c: Option<Command>)
    ensures c.Some? ==> Name(c.value) == name
    ensures c.None? ==> forall cmd: Command :: Name(cmd) != name
  {
    if name == "exit" then Some(Exit)
    else if name == "help" then Some(Help)
    else if name == "map" then Some(Map)
    else if name == "mapb" then Some(Mapb)
    else if name == "explore" then Some(Explore)
    else if name == "catch" then Some(Catch)
    else if name == "inspect" then Some(Inspect)
    else if name == "pokedex" then Some(Pokedex)
    else None
  }

  /** Every command is found under its own key. */
  lemma LookupName(c: Command)
    ensures Lookup(Name(c)) == Some(c)
  {
  }

  /** A read line after cleaning: nothing, or a command word and its parameters. */
  datatype Line = Blank | Words(command: string, params: seq<string>)

  /** The empty-line skip and the command/parameters split of the read loop. */
  function ParseLine(input: string): (l: Line)
    ensures l.Blank? <==> IsBlank(input)
    ensures l.Words? ==> CleanInput(input) == [l.command] + l.params
    ensures l.Words? ==> IsWord(l.command) && NoUpper(l.command)
  {
    CleanInputEmptyIffBlank(input);
    var words := CleanInput(input);
    if |words| == 0 then Blank else Words(words[0], words[1..])
  }

  /** What the read loop does with a line. */
  datatype Action = Prompt | Unknown(name: string) | Invoke(cmd: Command, params: seq<string>)

  function Dispatch(input: string): (a: Action)
    ensures a.Prompt? <==> IsBlank(input)
    ensures a.Invoke? ==> CleanInput(input) == [Name(a.cmd)] + a.params
    ensures a.Unknown? ==> CleanInput(input) != [] && CleanInput(input)[0] == a.name && forall c: Command :: Name(c) != a.name
  {
    match ParseLine(input)
    case Blank => Prompt
    case Words(w, ps) =>
      match Lookup(w)
      case Some(c) => Invoke(c, ps)
      case None => Unknown(w)
  }

  lemma ToLowerMap()
    ensures ToLower("  MAP ") == "  map "
  {
  }

  lemma SpellsMap()
    ensures Spells("  map ", ["  ", " "], ["map"])
  {
    assert "  map " == Interleave(["  ", " "], ["map"]);
  }

  /** Command words are matched without regard to case, and surrounding
      white space does not matter. */
  lemma DispatchIgnoresCase()
    ensures Dispatch("  MAP ") == Invoke(Map, [])
  {
    ToLowerMap();
    SpellsMap();
    CleanInputOfSpelling("  MAP ", "  map ", ["  ", " "], ["map"]);
  }

  /** A line invokes a command with given parameters exactly when its
      cleaned words are the command's key followed by those parameters. */
  lemma DispatchInvokes(input: string, c: Command, params: seq<string>)
    ensures Dispatch(input) == Invoke(c, params) <==> CleanInput(input) == [Name(c)] + params
  {
    if CleanInput(input) == [Name(c)] + params {
      CleanInputEmptyIffBlank(input);
      LookupName(c);
    }
  }

  /** The `Next`/`Previous` links: of a fetched location-area page, and of `config`. */
  datatype Links = Links(next: Option<string>, previous: Option<string>)

  /** What fetching one URL gives: the page's links, or an error. */
  datatype Fetch = Fetched(links: Links) | Failed

  /** The location-area endpoint, URL by URL. */
  type Api = Option<string> -> Fetch

  /** How a paging command ended. */
  datatype Outcome = LastPage | FirstPage | FetchError | Shown

  /** `commandMap`: refuses on the last page (no next link, but a previous
      one), otherwise fetches the next link and, on success, adopts the
      fetched page's links. A failed fetch leaves the links as they were. */
  function MapStep(s: Links, api: Api): (Links, Outcome)
  {
    if s.next.None? && s.previous.Some? then (s, LastPage)
    else
      match api(s.next)
      case Failed => (s, FetchError)
      case Fetched(p) => (p, Shown)
  }

  /** `commandMapb`: refuses on the first page (no previous link), otherwise
      fetches the previous link and, on success, adopts the fetched page's links. */
  function MapbStep(s: Links, api: Api): (Links, Outcome)
  {
    if s.previous.None? then (s, FirstPage)
    else
      match api(s.previous)
      case Failed => (s, FetchError)
      case Fetched(p) => (p, Shown)
  }

  /** `map` asks the endpoint for the `Next` link and nothing else: two
      endpoints that agree on that URL give the same step. */
  lemma MapFetchesNext(s: Links, api1: Api, api2: Api)
    requires api1(s.next) == api2(s.next)
    ensures MapStep(s, api1) == MapStep(s, api2)
  {
  }

  /** `mapb` asks the endpoint for the `Previous` link and nothing else. */
  lemma MapbFetchesPrevious(s: Links, api1: Api, api2: Api)
    requires api1(s.previous) == api2(s.previous)
    ensures MapbStep(s, api1) == MapbStep(s, api2)
  {
  }

  /** When the pages link back to each other, `map` then `mapb` returns to
      the page shown before: here that page was fetched from `url`, and the
      next page's previous link is `url`. */
  lemma MapThenMapbReturns(url: string, p: Links, api: Api)
    requires api(Some(url)) == Fetched(p)
    requires p.next.Some? && api(p.next).Fetched? && api(p.next).links.previous == Some(url)
    ensures MapStep(p, api).1 == Shown
    ensures MapbStep(MapStep(p, api).0, api) == (p, Shown)
  {
  }

  /** Likewise `mapb` then `map` returns to the page shown before. */
  lemma MapbThenMapReturns(url: string, p: Links, api: Api)
    requires api(Some(url)) == Fetched(p)
    requires p.previous.Some? && api(p.previous).Fetched? && api(p.previous).links.next == Some(url)
    ensures MapbStep(p, api).1 == Shown
    ensures MapStep(MapbStep(p, api).0, api) == (p, Shown)
  {
  }

  /** `config`: the paging links the `map` and `mapb` commands share. */
  class Config {
    var next: Option<string>
    var previous: Option<string>

    function State(): Links
      reads this
    {
      Links(next, previous)
    }

    /** The global `cfg` starts with neither link. */
    constructor ()
      ensures next == None && previous == None
    {
      next, previous := None, None;
    }

    /** `commandMap`: the links become the fetched page's. */
    method Map(api: Api) returns (outcome: Outcome)
      modifies this
      ensures (State(), outcome) == MapStep(old(State()), api)
      ensures old(next) == None && old(previous) != None ==> outcome == LastPage && unchanged(this)
      ensures outcome == Shown ==> State() == api(old(next)).links
    {
      if next == None && previous != None {
        return LastPage;
      }
      var response := api(next);
      if response.Failed? {
        return FetchError;
      }
      next := response.links.next;
      previous := response.links.previous;
      return Shown;
    }

    /** `commandMapb`: the links become the fetched page's. */
    method Mapb(api: Api) returns (outcome: Outcome)
      modifies this
      ensures (State(), outcome) == MapbStep(old(State()), api)
      ensures old(previous) == None ==> outcome == FirstPage && unchanged(this)
      ensures outcome == Shown ==> State() == api(old(previous)).links
    {
      if previous == None {
        return FirstPage;
      }
      var response := api(previous);
      if response.Failed? {
        return FetchError;
      }
      next := response.links.next;
      previous := response.links.previous;
      return Shown;
    }
  }

  /** The line calls `exit`, which ends the process. */
  predicate IsExit(input: string)
  {
    Dispatch(input).Invoke? && Dispatch(input).cmd == Exit
  }

  /** What one line does to the paging links; false when the session ends. */
  function Step(s: Links, input: string, api: Api): (Links, bool)
  {
    match Dispatch(input)
    case Invoke(Map, _) => (MapStep(s, api).0, true)
    case Invoke(Mapb, _) => (MapbStep(s, api).0, true)
    case Invoke(Exit, _) => (s, false)
    case _ => (s, true)
  }

  /** The paging links after reading `lines`, stopping at the first `exit`.
      `apis[i]` is the endpoint as it answers while line `i` runs: a URL that
      failed once may succeed later, and a page fetched again after its cache
      entry expired may carry other links. */
  function Session(s: Links, lines: seq<string>, apis: seq<Api>): Links
    requires |apis| == |lines|
    decreases |lines|
  {
    if lines == [] then s
    else
      var (t, go) := Step(s, lines[0], apis[0]);
      if go then Session(t, lines[1..], apis[1..]) else t
  }

  /** A blank line changes nothing about a session, whatever the endpoint
      answered while it was read. */
  lemma {:induction false} BlankLineSkipped(s: Links, xs: seq<string>, b: string, ys: seq<string>,
                                            xa: seq<Api>, ba: Api, ya: seq<Api>)
    requires IsBlank(b)
    requires |xa| == |xs| && |ya| == |ys|
    ensures Session(s, xs + [b] + ys, xa + [ba] + ya) == Session(s, xs + ys, xa + ya)
    decreases |xs|
  {
    if xs == [] {
      assert ([] + [b] + ys)[1..] == ys && ([] + [ba] + ya)[1..] == ya;
      assert [] + ys == ys && [] + ya == ya;
    } else {
      var (t, go) := Step(s, xs[0], xa[0]);
      assert (xs + [b] + ys)[0] == xs[0] && (xs + ys)[0] == xs[0];
      assert (xa + [ba] + ya)[0] == xa[0] && (xa + ya)[0] == xa[0];
      if go {
        assert (xs + [b] + ys)[1..] == xs[1..] + [b] + ys;
        assert (xs + ys)[1..] == xs[1..] + ys;
        assert (xa + [ba] + ya)[1..] == xa[1..] + [ba] + ya;
        assert (xa + ya)[1..] == xa[1..] + ya;
        BlankLineSkipped(t, xs[1..], b, ys, xa[1..], ba, ya);
      }
    }
  }

  /** Nothing after an `exit` line is read, nor is the endpoint asked again. */
  lemma {:induction false} ExitEndsSession(s: Links, xs: seq<string>, e: string, ys: seq<string>,
                                           xa: seq<Api>, ea: Api, ya: seq<Api>)
    requires IsExit(e)
    requires |xa| == |xs| && |ya| == |ys|
    ensures Session(s, xs + [e] + ys, xa + [ea] + ya) == Session(s, xs, xa)
    decreases |xs|
  {
    if xs == [] {
      assert ([] + [e] + ys)[0] == e && ([] + [ea] + ya)[0] == ea;
    } else {
      var (t, go) := Step(s, xs[0], xa[0]);
      assert (xs + [e] + ys)[0] == xs[0] && (xa + [ea] + ya)[0] == xa[0];
      if go {
        assert (xs + [e] + ys)[1..] == xs[1..] + [e] + ys;
        assert (xa + [ea] + ya)[1..] == xa[1..] + [ea] + ya;
        ExitEndsSession(t, xs[1..], e, ys, xa[1..], ea, ya);
      }
    }
  }

  /** A failed fetch is not final: when `map` fails on one line and the
      endpoint answers on a later `map` line, that line shows the page. */
  lemma MapRetriesAfterFailure(s: Links, l1: string, l2: string, a1: Api, a2: Api, p: Links)
    requires Dispatch(l1).Invoke? && Dispatch(l1).cmd == Map
    requires Dispatch(l2).Invoke? && Dispatch(l2).cmd == Map
    requires s.next.Some? || s.previous.None?
    requires a1(s.next) == Failed && a2(s.next) == Fetched(p)
    ensures Session(s, [l1, l2], [a1, a2]) == p
  {
    assert MapStep(s, a1) == (s, FetchError) && Step(s, l1, a1) == (s, true);
    assert MapStep(s, a2) == (p, Shown) && Step(s, l2, a2) == (p, true);
    assert [l1, l2][1..] == [l2] && [a1, a2][1..] == [a2];
    assert [l2][1..] == [] && [a2][1..] == [];
    assert Session(s, [l2], [a2]) == Session(p, [], []);
    assert Session(s, [l1, l2], [a1, a2]) == Session(s, [l2], [a2]);
  }

  /** The read loop of `main` over the lines `bufio.Scanner` delivers from
      standard input: returns whether an `exit` line ended it. Line `i` is
      served by `apis[i]`. A scanner error (a line over 64 KiB) that ends the
      loop early is not modelled: `lines` are the lines read before it.
      Nor is the crash of a `catch` whose Pokémon has base experience 0 (an
      integer division by zero in `commandCatch`): a `catch` line leaves the
      paging state alone and the loop goes on. */
  method Run(cfg: Config, lines: seq<string>, apis: seq<Api>) returns (exited: bool)
    requires |apis| == |lines|
    modifies cfg
    ensures cfg.State() == Session(old(cfg.State()), lines, apis)
    ensures exited <==> exists i :: 0 <= i < |lines| && IsExit(lines[i])
  {
    var i := 0;
    while i < |lines|
      invariant 0 <= i <= |lines|
      invariant forall j :: 0 <= j < i ==> !IsExit(lines[j])
      invariant Session(old(cfg.State()), lines, apis) == Session(cfg.State(), lines[i..], apis[i..])
    {
      assert lines[i..][0] == lines[i] && lines[i..][1..] == lines[i + 1..];
      assert apis[i..][0] == apis[i] && apis[i..][1..] == apis[i + 1..];
      ghost var before := cfg.State();
      var action := Dispatch(lines[i]);
      if action.Invoke? && action.cmd == Exit {
        return true;
      } else if action.Invoke? && action.cmd == Map {
        var _ := cfg.Map(apis[i]);
      } else if action.Invoke? && action.cmd == Mapb {
        var _ := cfg.Mapb(apis[i]);
      }
      assert (cfg.State(), true) == Step(before, lines[i], apis[i]);
      i := i + 1;
    }
    return false;
  }
}
