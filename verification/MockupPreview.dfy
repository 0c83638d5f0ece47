// mockupPreviewPlugin.ts: the single-flight refresh of the generated module. Between two
// awaits the plugin runs without interruption, so its segments are the steps.
module MockupPreview {
  import opened Options

  type Listing = seq<string> // what the glob returns

  // ---------------------------------------------------------------- generated text

  /** A file `src/...` as the generated module names and imports it. */
  function Entry(file: string): string {
    var rest := if |file| < 4 then [] else file[4..];
    "  " + Quoted("./" + rest) + ": () => import(" + Quoted("../" + rest) + ")"
  }

  function Quoted(s: string): string {
    "\"" + Escaped(s) + "\""
  }

  function EscapedChar(c: char): string {
    if c == '"' || c == '\\' then "\\" + [c] else [c]
  }

  /** JSON.stringify for names without control characters. */
  function Escaped(s: string): string {
    if s == "" then "" else EscapedChar(s[0]) + Escaped(s[1..])
  }

  function Joined(files: Listing): string {
    if files == [] then "" else if |files| == 1 then Entry(files[0]) else Entry(files[0]) + ",\n" + Joined(files[1..])
  }

  function GenerateSource(files: Listing): string {
    "// This file is auto-generated by mockupPreviewPlugin.ts.\n" +
    "type ModuleMap = Record<string, () => Promise<Record<string, unknown>>>;\n" +
    "export const modules: ModuleMap = {\n" + Joined(files) + "\n};\n"
  }

  /** Reads a quoted text from behind its opening quote: the text, and what follows. */
  function Unquoted(text: string): Option<(string, string)> {
    if text == "" then None
    else if text[0] == '"' then Some(("", text[1..]))
    else
      var n := if text[0] == '\\' then 2 else 1;
      if |text| < n then None
      else match Unquoted(text[n..])
        case None => None
        case Some((value, rest)) => Some(([text[n - 1]] + value, rest))
  }

  lemma UnquotedOne(c: char, more: string)
    ensures Unquoted(EscapedChar(c) + more) ==
            match Unquoted(more) case None => None case Some((value, rest)) => Some(([c] + value, rest))
  {
    if c == '"' || c == '\\' {
      assert (EscapedChar(c) + more)[2..] == more;
    } else {
      assert (EscapedChar(c) + more)[1..] == more;
    }
  }

  lemma {:induction false} UnquotedEscaped(s: string, rest: string)
    ensures Unquoted(Escaped(s) + "\"" + rest) == Some((s, rest))
  {
    if s == "" {
      assert (Escaped(s) + "\"" + rest)[1..] == rest;
    } else {
      hide Unquoted, EscapedChar;
      var first, others := EscapedChar(s[0]), Escaped(s[1..]);
      UnquotedEscaped(s[1..], rest);
      UnquotedOne(s[0], others + "\"" + rest);
      assert Escaped(s) == first + others;
      assert first + others + "\"" + rest == first + (others + "\"" + rest);
      assert s == [s[0]] + s[1..];
    }
  }

  /** What the glob returns lies under the source directory. */
  predicate UnderSrc(files: Listing) {
    forall i :: 0 <= i < |files| ==> "src/" <= files[i]
  }

  function AfterKey(file: string): string {
    ": () => import(" + Quoted("../" + file[if |file| < 4 then |file| else 4..]) + ")"
  }

  lemma EntryShape(a: string, more: string)
    requires "src/" <= a
    ensures |Entry(a) + more| >= 3
    ensures (Entry(a) + more)[3..] == Escaped("./" + a[4..]) + "\"" + (AfterKey(a) + more)
  {
    var key := Escaped("./" + a[4..]);
    assert Entry(a) + more == "  \"" + (key + "\"" + (AfterKey(a) + more));
  }

  /** A listed file `src/x` is keyed `./x` and imported from `../x`. */
  lemma EntryImportsFile(x: string, more: string)
    ensures var text := Entry("src/" + x) + more;
            var importing := ": () => import(\"";
            && exists rest :: Unquoted(text[3..]) == Some(("./" + x, importing + rest)) &&
                              Unquoted(rest) == Some(("../" + x, ")" + more))
  {
    hide Entry, Unquoted;
    var a := "src/" + x;
    assert a[4..] == x;
    EntryShape(a, more);
    UnquotedEscaped("./" + x, AfterKey(a) + more);
    var rest := Escaped("../" + x) + "\"" + (")" + more);
    UnquotedEscaped("../" + x, ")" + more);
    assert AfterKey(a) + more == ": () => import(\"" + rest;
  }

  lemma EntryTellsFile(a: string, b: string, more: string, more': string)
    requires "src/" <= a && "src/" <= b && Entry(a) + more == Entry(b) + more'
    ensures a == b && more == more'
  {
    hide Entry, AfterKey;
    EntryShape(a, more);
    EntryShape(b, more');
    UnquotedEscaped("./" + a[4..], AfterKey(a) + more);
    UnquotedEscaped("./" + b[4..], AfterKey(b) + more');
    assert ("./" + a[4..])[2..] == a[4..] && ("./" + b[4..])[2..] == b[4..];
    assert a == "src/" + a[4..] && b == "src/" + b[4..];
    assert (AfterKey(a) + more)[|AfterKey(a)|..] == more && (AfterKey(b) + more')[|AfterKey(b)|..] == more';
  }

  /** The text of a listing behind its first entry. */
  function More(files: Listing): string
    requires files != []
  {
    if |files| == 1 then "" else ",\n" + Joined(files[1..])
  }

  lemma JoinedIsEntryAndMore(files: Listing)
    requires files != []
    ensures Joined(files) == Entry(files[0]) + More(files) && Joined(files) != ""
  {
  }

  lemma {:induction false} JoinedTellsListing(a: Listing, b: Listing)
    requires UnderSrc(a) && UnderSrc(b) && Joined(a) == Joined(b)
    ensures a == b
    decreases |a|
  {
    hide Joined, Entry;
    if a == [] || b == [] {
      EmptyJoined(a);
      EmptyJoined(b);
    } else {
      JoinedIsEntryAndMore(a);
      JoinedIsEntryAndMore(b);
      EntryTellsFile(a[0], b[0], More(a), More(b));
      if |a| > 1 && |b| > 1 {
        assert More(a)[2..] == Joined(a[1..]) && More(b)[2..] == Joined(b[1..]);
        JoinedTellsListing(a[1..], b[1..]);
        assert a == [a[0]] + a[1..] && b == [b[0]] + b[1..];
      }
    }
  }

  lemma EmptyJoined(files: Listing)
    ensures Joined(files) == "" <==> files == []
  {
    if files != [] {
      JoinedIsEntryAndMore(files);
    }
  }

  lemma SourceTellsJoined(a: Listing, b: Listing)
    requires GenerateSource(a) == GenerateSource(b)
    ensures Joined(a) == Joined(b)
  {
    hide Joined;
    var n := |GenerateSource(a)| - |Joined(a)|;
    assert |Joined(a)| == |Joined(b)|;
    assert GenerateSource(a)[n - 4..][..|Joined(a)|] == Joined(a);
    assert GenerateSource(b)[n - 4..][..|Joined(b)|] == Joined(b);
  }

  // ---------------------------------------------------------------- the plugin

  /** The plugin's variables and the module on disk. Nothing is known of a module that an
      earlier run may have left there. */
  datatype Plugin = Plugin(currentSource: string, file: Option<string>, inFlight: bool, queued: bool)

  /** `refresh` up to its first await: whether a scan starts. */
  function Begin(p: Plugin): (Plugin, bool) {
    if p.inFlight then (p.(queued := true), false) else (p.(inFlight := true), true)
  }

  /** `refresh` after its scan, up to the next await or the end: whether the module was
      rewritten and whether a follow-up scan starts. */
  function Finish(p: Plugin, files: Listing): (Plugin, bool, bool) {
    var source := GenerateSource(files);
    var changed := source != p.currentSource;
    var p1 := if changed then p.(currentSource := source, file := Some(source)) else p;
    if p1.queued then (p1.(inFlight := true, queued := false), changed, true)
    else (p1.(inFlight := false), changed, false)
  }

  /** A scan that throws: `finally` runs, the rest of `refresh` does not. */
  function Fail(p: Plugin): Plugin {
    p.(inFlight := false)
  }

  /** How a write of the module ends; one that throws may leave anything on disk. */
  datatype WriteOutcome = Written | Threw(left: Option<string>)

  /** A write that throws: the source is assigned already, `finally` runs, the rest of `refresh`
      does not. */
  function FailWrite(p: Plugin, files: Listing, left: Option<string>): Plugin {
    p.(currentSource := GenerateSource(files), file := left, inFlight := false)
  }

  /** The generated text determines the listing, so `refresh` rewrites the module exactly when
      the listing has changed since it was generated. */
  lemma RewrittenIffListingChanged(p: Plugin, was: Listing, files: Listing)
    requires UnderSrc(was) && UnderSrc(files) && p.currentSource == GenerateSource(was)
    ensures var (p', changed, _) := Finish(p, files);
            && (changed <==> files != was)
            && p'.currentSource == GenerateSource(files)
  {
    if GenerateSource(files) == GenerateSource(was) {
      SourceTellsJoined(files, was);
      JoinedTellsListing(files, was);
    }
  }

  class MockupPreviewPlugin {
    var currentSource: string
    var refreshInFlight: bool
    var refreshQueued: bool
    var generatedModule: Option<string>

    ghost function View(): Plugin
      reads this
    {
      Plugin(currentSource, generatedModule, refreshInFlight, refreshQueued)
    }

    constructor ()
      ensures View() == Plugin("", None, false, false)
    {
      currentSource, refreshInFlight, refreshQueued, generatedModule := "", false, false, None;
    }

    method BeginRefresh() returns (scanStarts: bool)
      modifies this
      ensures (View(), scanStarts) == Begin(old(View()))
    {
      if refreshInFlight {
        refreshQueued := true;
        return false;
      }
      refreshInFlight := true;
      return true;
    }

    method FinishRefresh(files: Listing, outcome: WriteOutcome) returns (threw: bool, changed: bool, scanStarts: bool)
      modifies this
      ensures threw <==> GenerateSource(files) != old(currentSource) && outcome.Threw?
      ensures if threw then View() == FailWrite(old(View()), files, outcome.left)
              else (View(), changed, scanStarts) == Finish(old(View()), files)
    {
      threw, changed, scanStarts := false, false, false;
      var newSource := GenerateSource(files);
      if newSource != currentSource {
        currentSource := newSource;
        if outcome.Threw? {
          generatedModule := outcome.left;
          refreshInFlight := false;
          return true, false, false;
        }
        generatedModule := Some(currentSource);
        changed := true;
      }
      refreshInFlight := false;
      if refreshQueued {
        refreshQueued := false;
        scanStarts := BeginRefresh();
      }
    }

    method FailRefresh()
      modifies this
      ensures View() == Fail(old(View()))
    {
      refreshInFlight := false;
    }
  }

  // ---------------------------------------------------------------- the system

  /** A running scan: it has not looked yet, or it has seen `files`. The call it works for
      began when the module had been written `since` times, and has seen a change or not. */
  datatype Scan = Scan(seen: Option<Listing>, since: nat, changed: bool)

  datatype System = System(
    plugin: Plugin, dir: Listing, scans: seq<Scan>,
    writes: nat,         // history: how often the module was rewritten
    returned: seq<(bool, bool)>) // history: answers of calls that scanned, with "rewritten meanwhile"

  datatype Action =
    | Request
    | Change(dir: Listing)
    | ScanReads(n: nat)
    | ScanEnds(n: nat)
    | ScanFails(n: nat)
    | WriteFails(n: nat, left: Option<string>)

  predicate Enabled(s: System, a: Action) {
    match a
    case ScanReads(n) => n < |s.scans| && s.scans[n].seen.None?
    case ScanEnds(n) => n < |s.scans| && s.scans[n].seen.Some?
    case ScanFails(n) => n < |s.scans|
    case WriteFails(n, _) =>
      n < |s.scans| && s.scans[n].seen.Some? && GenerateSource(s.scans[n].seen.value) != s.plugin.currentSource
    case _ => true
  }

  function Without(scans: seq<Scan>, n: nat): seq<Scan>
    requires n < |scans|
  {
    scans[..n] + scans[n + 1..]
  }

  function Apply(s: System, a: Action): System
    requires Enabled(s, a)
  {
    match a
    case Request =>
      var (p, starts) := Begin(s.plugin);
      s.(plugin := p, scans := if starts then s.scans + [Scan(None, s.writes, false)] else s.scans)
    case Change(dir) => s.(dir := dir)
    case ScanReads(n) => s.(scans := s.scans[n := s.scans[n].(seen := Some(s.dir))])
    case ScanEnds(n) =>
      var scan := s.scans[n];
      var (p, changed, starts) := Finish(s.plugin, scan.seen.value);
      var writes := if changed then s.writes + 1 else s.writes;
      var sofar := scan.changed || changed;
      if starts then
        s.(plugin := p, writes := writes, scans := Without(s.scans, n) + [Scan(None, scan.since, sofar)])
      else
        s.(plugin := p, writes := writes, scans := Without(s.scans, n),
           returned := s.returned + [(sofar, writes > scan.since)])
    case ScanFails(n) => s.(plugin := Fail(s.plugin), scans := Without(s.scans, n))
    case WriteFails(n, left) =>
      s.(plugin := FailWrite(s.plugin, s.scans[n].seen.value, left), scans := Without(s.scans, n))
  }

  /** Before anything runs, on any directory and with any module left over. */
  function Start(file: Option<string>, dir: Listing): System {
    System(Plugin("", file, false, false), dir, [], 0, [])
  }

  datatype Run = Run(systems: seq<System>, actions: seq<Action>)

  predicate WellShaped(run: Run) {
    |run.systems| == |run.actions| + 1 && run.systems[0] == Start(run.systems[0].plugin.file, run.systems[0].dir)
  }

  predicate StepAt(run: Run, i: nat)
    requires WellShaped(run) && i < |run.actions|
  {
    Enabled(run.systems[i], run.actions[i]) && run.systems[i + 1] == Apply(run.systems[i], run.actions[i])
  }

  ghost predicate IsRun(run: Run) {
    WellShaped(run) && forall i :: 0 <= i < |run.actions| ==> StepAt(run, i)
  }

  predicate Fails(a: Action) {
    a.ScanFails? || a.WriteFails?
  }

  ghost predicate NoFailure(run: Run, i: nat, j: nat)
    requires j <= |run.actions|
  {
    forall k :: i <= k < j ==> !Fails(run.actions[k])
  }

  // ---------------------------------------------------------------- single flight

  /** One scan exactly while `refreshInFlight`. */
  predicate SingleFlight(s: System) {
    && |s.scans| == (if s.plugin.inFlight then 1 else 0)
    && (forall i :: 0 <= i < |s.scans| ==>
          s.scans[i].since <= s.writes && (s.scans[i].changed <==> s.writes > s.scans[i].since))
    && (forall i :: 0 <= i < |s.returned| ==> s.returned[i].0 == s.returned[i].1)
  }

  /** At most one scan is in flight, even when scans or writes throw; and `refresh` answers whether the
      module was rewritten while the call ran. */
  lemma {:induction false} AlwaysSingleFlight(run: Run, i: nat)
    requires IsRun(run) && i <= |run.actions|
    ensures SingleFlight(run.systems[i])
  {
    hide SingleFlight, Apply;
    if i > 0 {
      AlwaysSingleFlight(run, i - 1);
      assert StepAt(run, i - 1);
      StepKeepsSingleFlight(run.systems[i - 1], run.actions[i - 1]);
    } else {
      StartIsQuiet(run.systems[0].plugin.file, run.systems[0].dir);
    }
  }

  lemma StepKeepsSingleFlight(s: System, a: Action)
    requires SingleFlight(s) && Enabled(s, a)
    ensures SingleFlight(Apply(s, a))
  {
    hide GenerateSource;
    match a
    case ScanEnds(n) => ScanEndKeepsSingleFlight(s, n);
    case _ => hide Finish;
  }

  lemma ScanEndKeepsSingleFlight(s: System, n: nat)
    requires SingleFlight(s) && Enabled(s, ScanEnds(n))
    ensures SingleFlight(Apply(s, ScanEnds(n)))
  {
    hide GenerateSource;
    assert n == 0 && Without(s.scans, 0) == [];
  }

  lemma StartIsQuiet(file: Option<string>, dir: Listing)
    ensures SingleFlight(Start(file, dir))
  {
  }

  /** A queued request implies a scan in flight, and a step breaks this only by a scan or
      write that throws while a request is queued: that request is then forgotten. */
  lemma QueuedImpliesInFlight(s: System, a: Action)
    requires SingleFlight(s) && Enabled(s, a)
    requires s.plugin.queued ==> s.plugin.inFlight
    ensures var p := Apply(s, a).plugin;
            (p.queued ==> p.inFlight) <==> !(Fails(a) && s.plugin.queued)
  {
    hide GenerateSource, Without;
    match a
    case ScanEnds(_) =>
    case _ => hide Finish;
  }

  /** A run in which a scan throws while a second request is queued behind it. */
  function ThrownScan(): Run {
    var s0 := Start(None, []);
    var scans := [Scan(None, 0, false)];
    Run(
      [s0,
       s0.(plugin := Plugin("", None, true, false), scans := scans),
       s0.(plugin := Plugin("", None, true, true), scans := scans),
       s0.(plugin := Plugin("", None, false, true))],
      [Request, Request, ScanFails(0)])
  }

  /** The queued request is left behind: nothing is in flight, and nothing was generated. */
  lemma RequestForgotten()
    ensures var run := ThrownScan();
            && IsRun(run) && run.actions[1] == Request
            && run.systems[3].plugin.queued && !run.systems[3].plugin.inFlight
            && run.systems[3].plugin.currentSource == ""
  {
    hide GenerateSource, Finish;
    var run := ThrownScan();
    forall i | 0 <= i < |run.actions| ensures StepAt(run, i) {
      assert Without([Scan(None, 0, false)], 0) == [];
    }
  }

  lemma {:induction false} AlwaysQueuedInFlight(run: Run, i: nat)
    requires IsRun(run) && i <= |run.actions| && NoFailure(run, 0, i)
    ensures run.systems[i].plugin.queued ==> run.systems[i].plugin.inFlight
  {
    hide SingleFlight, Apply;
    if i > 0 {
      AlwaysQueuedInFlight(run, i - 1);
      AlwaysSingleFlight(run, i - 1);
      assert StepAt(run, i - 1);
      QueuedImpliesInFlight(run.systems[i - 1], run.actions[i - 1]);
    }
  }

  // ---------------------------------------------------------------- no lost update

  /** The directory was `files` at some moment after step `r`, up to point `i`. */
  ghost predicate SeenSince(run: Run, r: nat, i: nat, files: Listing)
    requires i < |run.systems|
  {
    exists k :: r < k <= i && run.systems[k].dir == files
  }

  /** The request made in step `r` is served, or still going to be. */
  ghost predicate Covers(run: Run, r: nat, i: nat)
    requires r < i < |run.systems|
  {
    var s := run.systems[i];
    if !s.plugin.inFlight then
      !s.plugin.queued &&
      exists files :: SeenSince(run, r, i, files) && s.plugin.currentSource == GenerateSource(files)
    else
      s.plugin.queued ||
      (|s.scans| == 1 && (s.scans[0].seen.Some? ==> SeenSince(run, r, i, s.scans[0].seen.value)))
  }

  lemma SeenLonger(run: Run, r: nat, i: nat, files: Listing)
    requires i + 1 < |run.systems| && SeenSince(run, r, i, files)
    ensures SeenSince(run, r, i + 1, files)
  {
  }

  lemma CoversStep(run: Run, r: nat, i: nat)
    requires IsRun(run) && r < i < |run.actions| && Covers(run, r, i)
    requires SingleFlight(run.systems[i]) && !Fails(run.actions[i])
    ensures Covers(run, r, i + 1)
  {
    hide GenerateSource;
    assert StepAt(run, i);
    var s, a, s' := run.systems[i], run.actions[i], run.systems[i + 1];
    if !s.plugin.inFlight {
      var files :| SeenSince(run, r, i, files) && s.plugin.currentSource == GenerateSource(files);
      SeenLonger(run, r, i, files);
    } else if |s.scans| == 1 && s.scans[0].seen.Some? && !s.plugin.queued {
      SeenLonger(run, r, i, s.scans[0].seen.value);
    }
    if a.ScanReads? && s.plugin.inFlight {
      assert run.systems[i + 1].dir == s'.scans[0].seen.value;
    }
  }

  lemma {:induction false} RequestCovered(run: Run, r: nat, i: nat)
    requires IsRun(run) && r < i <= |run.actions| && run.actions[r].Request? && NoFailure(run, r, i)
    ensures Covers(run, r, i)
    decreases i
  {
    if i == r + 1 {
      assert StepAt(run, r);
      AlwaysSingleFlight(run, r);
    } else {
      RequestCovered(run, r, i - 1);
      AlwaysSingleFlight(run, i - 1);
      CoversStep(run, r, i - 1);
    }
  }

  // ---------------------------------------------------------------- the module on disk

  /** What a throwing write has left on disk, if no write has succeeded since. */
  ghost function LeftBehind(run: Run, i: nat): Option<Option<string>>
    requires WellShaped(run) && i <= |run.actions|
  {
    if i == 0 then None
    else if run.actions[i - 1].WriteFails? then Some(run.actions[i - 1].left)
    else if run.systems[i].writes > run.systems[i - 1].writes then None
    else LeftBehind(run, i - 1)
  }

  predicate OnDisk(p: Plugin, left: Option<Option<string>>) {
    p.currentSource != "" ==> p.file == if left.Some? then left.value else Some(p.currentSource)
  }

  lemma StepKeepsDisk(s: System, a: Action, left: Option<Option<string>>)
    requires Enabled(s, a) && OnDisk(s.plugin, left)
    ensures var s' := Apply(s, a);
            OnDisk(s'.plugin, if a.WriteFails? then Some(a.left) else if s'.writes > s.writes then None else left)
  {
    hide GenerateSource, Without;
  }

  lemma {:induction false} DiskFollows(run: Run, i: nat)
    requires IsRun(run) && i <= |run.actions|
    ensures OnDisk(run.systems[i].plugin, LeftBehind(run, i))
  {
    hide OnDisk, Apply, Enabled;
    if i > 0 {
      DiskFollows(run, i - 1);
      assert StepAt(run, i - 1);
      StepKeepsDisk(run.systems[i - 1], run.actions[i - 1], LeftBehind(run, i - 1));
    } else {
      NothingGenerated(run.systems[0].plugin.file, run.systems[0].dir);
    }
  }

  lemma NothingGenerated(file: Option<string>, dir: Listing)
    ensures OnDisk(Start(file, dir).plugin, None)
  {
  }

  /** Once something has been generated, the module on disk is the current source exactly if no
      write has thrown since the last one that succeeded, or the one that threw had left the
      whole text all the same. A scan of the same listing does not repair it. */
  lemma ModuleIsSourceIff(run: Run, i: nat)
    requires IsRun(run) && i <= |run.actions| && run.systems[i].plugin.currentSource != ""
    ensures var p, left := run.systems[i].plugin, LeftBehind(run, i);
            p.file == Some(p.currentSource) <==> left == None || left == Some(Some(p.currentSource))
  {
    DiskFollows(run, i);
  }

  lemma SourceNotEmpty(files: Listing)
    ensures GenerateSource(files) != ""
  {
    hide Joined;
    assert |"\n};\n"| == 4 && |GenerateSource(files)| >= 4;
  }

  /** No lost update: whenever nothing is in flight (and then nothing is queued either), the
      current source was generated from the directory as it was at some moment after the last
      request, for any interleaving of requests, file changes, scans and writes, provided
      neither a scan nor a write has thrown since that request. The module on disk is that text
      exactly unless an earlier throwing write has left something else there. */
  lemma NoLostUpdate(run: Run, r: nat, i: nat) returns (k: nat)
    requires IsRun(run) && r < i <= |run.actions| && run.actions[r].Request? && NoFailure(run, r, i)
    requires !run.systems[i].plugin.inFlight
    ensures r < k <= i && !run.systems[i].plugin.queued
    ensures run.systems[i].plugin.currentSource == GenerateSource(run.systems[k].dir)
    ensures run.systems[i].plugin.file == Some(GenerateSource(run.systems[k].dir))
            <==> LeftBehind(run, i) == None || LeftBehind(run, i) == Some(Some(GenerateSource(run.systems[k].dir)))
  {
    hide GenerateSource;
    RequestCovered(run, r, i);
    var files :| SeenSince(run, r, i, files) && run.systems[i].plugin.currentSource == GenerateSource(files);
    k :| r < k <= i && run.systems[k].dir == files;
    SourceNotEmpty(files);
    ModuleIsSourceIff(run, i);
  }

  /** A run in which the first write throws, the listing stays as it is, and a later request is
      served without any failure: no module is ever written. */
  function ThrownWrite(): Run {
    var s0 := Start(None, []);
    var source := GenerateSource([]);
    var scanning := Plugin("", None, true, false);
    var thrown, again := Plugin(source, None, false, false), Plugin(source, None, true, false);
    Run(
      [s0,
       s0.(plugin := scanning, scans := [Scan(None, 0, false)]),
       s0.(plugin := scanning, scans := [Scan(Some([]), 0, false)]),
       s0.(plugin := thrown),
       s0.(plugin := again, scans := [Scan(None, 0, false)]),
       s0.(plugin := again, scans := [Scan(Some([]), 0, false)]),
       s0.(plugin := thrown, returned := [(false, false)])],
      [Request, ScanReads(0), WriteFails(0, None), Request, ScanReads(0), ScanEnds(0)])
  }

  lemma ModuleNeverWritten()
    ensures var run := ThrownWrite();
            && IsRun(run) && run.actions[3] == Request && NoFailure(run, 3, 6)
            && !run.systems[6].plugin.inFlight && run.systems[6].plugin.file == None
            && run.systems[6].plugin.currentSource == GenerateSource(run.systems[6].dir)
  {
    hide GenerateSource;
    SourceNotEmpty([]);
    var run := ThrownWrite();
    forall i | 0 <= i < |run.actions| ensures StepAt(run, i) {
      assert Without([Scan(Some([]), 0, false)], 0) == [];
    }
  }

  /** Scans still to be finished if nobody asks again. */
  function Outstanding(p: Plugin): nat {
    (if p.inFlight then 1 else 0) + (if p.inFlight && p.queued then 1 else 0)
  }

  /** Requests are coalesced: without new ones every scan that ends brings the plugin one step
      closer to rest, so at most two scans follow the last request. */
  lemma ScansAreCoalesced(s: System, a: Action)
    requires SingleFlight(s) && Enabled(s, a) && a.ScanEnds?
    ensures Outstanding(Apply(s, a).plugin) == Outstanding(s.plugin) - 1 && Outstanding(s.plugin) <= 2
  {
    hide GenerateSource, Without;
  }
}
