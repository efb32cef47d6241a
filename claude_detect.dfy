/**
  claude_detect.py (and the copies in bot.py): the title classifier, the decoding
  of the assistant's project directory names, the recent-projects lists and the
  cached, sorted scan for assistant windows.

  The directory listing and the desktop enumeration are inputs: a project list is
  given as the parent directory names of the transcript files, newest first, and
  the desktop as the windows it reports, each with its title and class name (or
  `None` where reading them raised).
*/
module ClaudeDetect {
  import opened Wrappers
  import opened Text
  import opened Config

  // ---------------------------------------------------------------- status classifier

  datatype Status = Thinking | Idle | Unknown

  /**
    `detect_claude_state`: a spinner glyph in front means the assistant works; the
    ready glyph in front or the case-sensitive word "Claude" anywhere means it waits;
    everything else, the empty title included, is unknown.
  */
  function DetectState(title: string): (r: Status)
    ensures r == Thinking <==> title != [] && IsSpinner(title[0])
    ensures r == Idle <==>
      title != [] && !IsSpinner(title[0]) && (title[0] == ReadyGlyph || Contains(title, "Claude"))
  {
    if title == [] then Unknown
    else if IsSpinner(title[0]) then Thinking
    else if title[0] == ReadyGlyph || Contains(title, "Claude") then Idle
    else Unknown
  }

  /** The empty title (a window whose title could not be read) is unknown. */
  lemma EmptyTitleUnknown()
    ensures DetectState([]) == Unknown
  {
  }

  /** A spinner in front wins over the word "Claude" later in the title. */
  lemma SpinnerWins(title: string)
    requires title != [] && IsSpinner(title[0]) && Contains(title, "Claude")
    ensures DetectState(title) == Thinking
  {
  }

  /** The busy and ready markers are disjoint: a ready glyph in front always reads as idle. */
  lemma ReadyGlyphIsIdle(title: string)
    requires title != [] && title[0] == ReadyGlyph
    ensures DetectState(title) == Idle
  {
  }

  /** A title holding "Claude" is never unknown. */
  lemma ClaudeTitleIsKnown(title: string)
    requires Contains(title, "Claude")
    ensures DetectState(title) != Unknown
  {
  }

  // ---------------------------------------------------------------- project directory names

  /**
    The assistant stores a project under its path with ':' and '\' turned into '-';
    a name is in drive form when it is one non-dash character followed by a dash.
  */
  predicate DriveForm(d: string) {
    |d| >= 2 && d[0] != '-' && d[1] == '-'
  }

  /** Splitting at dashes gives at least two parts, the first of one character, exactly for the drive form. */
  lemma DriveFormIff(d: string)
    ensures var parts := Split(d, '-'); (|parts| >= 2 && |parts[0]| == 1) <==> DriveForm(d)
  {
    var parts := Split(d, '-');
    if DriveForm(d) {
      SplitAround([d[0]], d[2..], '-');
      assert [d[0]] + ['-'] + d[2..] == d;
    } else if d != [] && d[0] != '-' {
      SplitHead(d, '-');
      if |d| >= 2 {
        assert d[1..][0] != '-';
        SplitHead(d[1..], '-');
      } else {
        assert d[1..] == [];
      }
    }
  }

  /**
    `_decode_proj_dirname`: in drive form the first part is the drive letter and the
    remaining dashes are path separators; any other name is returned unchanged.
  */
  function DecodeProjDirname(d: string): (r: string)
    ensures DriveForm(d) ==> r == [d[0], ':', '\\'] + ReplaceChar(d[2..], '-', '\\')
    ensures !DriveForm(d) ==> r == d
  {
    var parts := Split(d, '-');
    DriveFormIff(d);
    if |parts| >= 2 && |parts[0]| == 1 then
      (DecodeDriveForm(d);
       parts[0] + ":\\" + Join(parts[1..], '\\'))
    else d
  }

  /** The drive-form branch of the decoding, stated on characters. */
  lemma DecodeDriveForm(d: string)
    requires DriveForm(d)
    ensures var parts := Split(d, '-');
      parts[0] + ":\\" + Join(parts[1..], '\\') == [d[0], ':', '\\'] + ReplaceChar(d[2..], '-', '\\')
  {
    SplitAround([d[0]], d[2..], '-');
    assert [d[0]] + ['-'] + d[2..] == d;
    JoinSplitReplace(d[2..], '-', '\\');
  }

  /** The decoding only rewrites dashes: a name without dashes decodes to itself. */
  lemma DecodeWithoutDash(d: string)
    requires '-' !in d
    ensures DecodeProjDirname(d) == d
  {
    if |d| >= 2 {
      assert d[1] in d;
    }
  }

  /** The last dash-separated part of a directory name. */
  function LastPart(d: string): (r: string)
    ensures '-' !in r
    ensures |r| <= |d| && r == d[|d| - |r|..]
  {
    SplitLastIsSuffix(d, '-');
    var parts := Split(d, '-');
    parts[|parts| - 1]
  }

  /** The name of an entry of `_get_active_projects_detail`: the last dash-part. */
  function DetailLabel(d: string): (r: string)
    ensures '-' !in r && |r| <= |d| && r == d[|d| - |r|..]
  {
    LastPart(d)
  }

  /**
    The label `_get_active_projects` shows: the last dash-part, except that a
    drive-form name whose last part is empty is shown whole.
  */
  function ProjectLabel(d: string): (r: string)
    ensures r == d || ('-' !in r && |r| <= |d| && r == d[|d| - |r|..])
    ensures DriveForm(d) ==> r != []
  {
    DriveFormIff(d);
    var parts := Split(d, '-');
    var last := LastPart(d);
    if |parts| >= 2 && |parts[0]| == 1 then
      (if last != [] then last else d)
    else last
  }

  /**
    bot.py's label: a name of the form `X--path` is labelled by the last non-empty
    part after the drive (the whole name when there is none); any other name by its
    last dash-part.
  */
  function LegacyProjectLabel(d: string): (r: string)
    ensures r == d || '-' !in r
  {
    var parts := Split(d, '-');
    if |parts| >= 2 && |parts[0]| == 1 && parts[1] == [] then
      var pathParts := NonEmpty(parts[2..]);
      if pathParts != [] then pathParts[|pathParts| - 1] else d
    else parts[|parts| - 1]
  }

  /** The non-empty parts, in order. */
  function NonEmpty(parts: seq<string>): (r: seq<string>)
    ensures forall i :: 0 <= i < |r| ==> r[i] != [] && r[i] in parts
    ensures forall p :: p in parts && p != [] ==> p in r
  {
    if parts == [] then []
    else if parts[0] == [] then NonEmpty(parts[1..])
    else [parts[0]] + NonEmpty(parts[1..])
  }

  /** The two versions of the label agree whenever the name does not end with a dash. */
  lemma {:induction false} LabelsAgree(d: string)
    requires LastPart(d) != []
    ensures ProjectLabel(d) == LegacyProjectLabel(d) == LastPart(d)
  {
    var parts := Split(d, '-');
    if |parts| >= 2 && |parts[0]| == 1 && parts[1] == [] {
      var tail := parts[2..];
      assert LastPart(d) == parts[|parts| - 1];
      assert |parts| >= 3;
      LastNonEmpty(tail);
      assert tail[|tail| - 1] == parts[|parts| - 1];
    }
  }

  /** When the last part is non-empty it is also the last non-empty part. */
  lemma {:induction false} LastNonEmpty(parts: seq<string>)
    requires parts != [] && parts[|parts| - 1] != []
    ensures var r := NonEmpty(parts); r != [] && r[|r| - 1] == parts[|parts| - 1]
    decreases |parts|
  {
    if |parts| > 1 {
      LastNonEmpty(parts[1..]);
      assert parts[1..][|parts[1..]| - 1] == parts[|parts| - 1];
    }
  }

  // ---------------------------------------------------------------- recent projects

  /** The names in first-seen order, each once: the `seen` list of the scans. */
  function Distinct(names: seq<string>): (r: seq<string>)
    ensures forall i, j :: 0 <= i < j < |r| ==> r[i] != r[j]
    ensures forall n :: n in r <==> n in names
    decreases |names|
  {
    if names == [] then []
    else
      var d := Distinct(names[..|names| - 1]);
      var last := names[|names| - 1];
      assert forall n :: n in names <==> n in names[..|names| - 1] || n == last;
      if last in d then d else d + [last]
  }

  /** The distinct names of a prefix come first among the distinct names of the whole. */
  lemma {:induction false} DistinctPrefix(names: seq<string>, k: nat)
    requires k <= |names|
    ensures var p := Distinct(names[..k]); |p| <= |Distinct(names)| && p == Distinct(names)[..|p|]
    decreases |names| - k
  {
    if k < |names| {
      DistinctPrefix(names, k + 1);
      assert names[..k + 1][..k] == names[..k];
    } else {
      assert names[..k] == names;
    }
  }

  /** How many projects a scan keeps: `max_count`, but at least the one appended before the check. */
  function ScanCap(maxCount: int): nat {
    if maxCount < 1 then 1 else maxCount
  }

  /** The projects a scan reports: the first `ScanCap(maxCount)` distinct names, newest first. */
  function RecentNames(names: seq<string>, maxCount: int): (r: seq<string>)
    ensures |r| <= ScanCap(maxCount) && |r| <= |Distinct(names)| && r == Distinct(names)[..|r|]
    ensures |r| < ScanCap(maxCount) ==> r == Distinct(names)
  {
    var d := Distinct(names);
    if |d| <= ScanCap(maxCount) then d else d[..ScanCap(maxCount)]
  }

  /** Once a prefix holds `ScanCap(maxCount)` distinct names, those are the names a scan keeps. */
  lemma RecentNamesFull(names: seq<string>, maxCount: int, k: nat)
    requires k <= |names| && |Distinct(names[..k])| == ScanCap(maxCount)
    ensures RecentNames(names, maxCount) == Distinct(names[..k])
  {
    DistinctPrefix(names, k);
  }

  /**
    The `seen` loop of `_get_active_projects`: walks the transcript directories
    newest first, keeps each name the first time it appears and stops once
    `max_count` names are kept.
  */
  method RecentProjects(names: seq<string>, maxCount: int) returns (seen: seq<string>)
    ensures seen == RecentNames(names, maxCount)
  {
    seen := [];
    var i := 0;
    while i < |names|
      invariant 0 <= i <= |names|
      invariant seen == Distinct(names[..i]) && |seen| < ScanCap(maxCount)
    {
      assert names[..i + 1][..i] == names[..i];
      if names[i] !in seen {
        seen := seen + [names[i]];
        if |seen| >= maxCount {
          RecentNamesFull(names, maxCount, i + 1);
          return;
        }
      }
      i := i + 1;
    }
    assert names[..i] == names;
  }

  /** An entry of `_get_active_projects_detail`. */
  datatype ProjectDetail = ProjectDetail(name: string, dirName: string, path: string)

  function Detail(d: string): ProjectDetail {
    ProjectDetail(DetailLabel(d), d, DecodeProjDirname(d))
  }

  /** `_get_active_projects_detail`: the same walk, building one entry per kept name. */
  method ActiveProjectsDetail(names: seq<string>, maxCount: int) returns (result: seq<ProjectDetail>)
    ensures var kept := RecentNames(names, maxCount);
      |result| == |kept| && forall i :: 0 <= i < |kept| ==> result[i] == Detail(kept[i])
  {
    result := WalkRecent(names, maxCount, Detail);
  }

  /** The walk of `_get_active_projects_detail`, with `entry` building the entry for a kept name. */
  method WalkRecent<T>(names: seq<string>, maxCount: int, entry: string -> T) returns (result: seq<T>)
    ensures var kept := RecentNames(names, maxCount);
      |result| == |kept| && forall i :: 0 <= i < |kept| ==> result[i] == entry(kept[i])
  {
    var seen: seq<string> := [];
    result := [];
    var i := 0;
    while i < |names|
      invariant 0 <= i <= |names|
      invariant seen == Distinct(names[..i]) && |seen| < ScanCap(maxCount)
      invariant result == Map(seen, entry)
    {
      assert names[..i + 1][..i] == names[..i];
      if names[i] !in seen {
        MapAppend(seen, names[i], entry);
        seen := seen + [names[i]];
        result := result + [entry(names[i])];
        if |result| >= maxCount {
          RecentNamesFull(names, maxCount, i + 1);
          return;
        }
      }
      i := i + 1;
    }
    assert names[..i] == names;
  }

  /** `_get_active_projects` (modular) or its bot.py copy (`legacy`): the labels of the kept names. */
  method ActiveProjects(names: seq<string>, maxCount: int, legacy: bool) returns (labels: seq<string>)
    ensures var kept := RecentNames(names, maxCount);
      |labels| == |kept|
      && forall i :: 0 <= i < |kept| ==>
        labels[i] == (if legacy then LegacyProjectLabel(kept[i]) else ProjectLabel(kept[i]))
  {
    var seen := RecentProjects(names, maxCount);
    var labelOf := (d: string) => if legacy then LegacyProjectLabel(d) else ProjectLabel(d);
    labels := [];
    for i := 0 to |seen|
      invariant labels == Map(seen[..i], labelOf)
    {
      MapSnoc(seen, labelOf, i);
      labels := labels + [labelOf(seen[i])];
    }
    assert seen[..|seen|] == seen;
  }

  // ---------------------------------------------------------------- window scan

  /** A top-level window as the desktop reports it; `None` where reading a property raised. */
  datatype DesktopWindow = DesktopWindow(handle: Handle, title: Option<string>, className: Option<string>)

  /** An entry of the scan result. */
  datatype WindowInfo = WindowInfo(title: string, handle: Handle, className: string, state: Status, userLabel: string)

  /** The window filter: the title, lower-cased, holds "claude". */
  predicate IsClaudeTitle(title: string) {
    Contains(Lower(title), "claude")
  }

  /** The entry the scan makes of a window, or `None` when the window is skipped. */
  function Entry(w: DesktopWindow, labels: map<Handle, string>): (r: Option<WindowInfo>)
    ensures r.Some? <==> w.title.Some? && IsClaudeTitle(w.title.value) && w.className.Some?
    ensures r.Some? ==>
      (r.value.handle == w.handle && r.value.title == w.title.value
       && r.value.state == DetectState(w.title.value)
       && r.value.userLabel == (if w.handle in labels then labels[w.handle] else ""))
  {
    if w.title.None? || !IsClaudeTitle(w.title.value) || w.className.None? then None
    else
      var t := w.title.value;
      Some(WindowInfo(t, w.handle, w.className.value, DetectState(t),
                      if w.handle in labels then labels[w.handle] else ""))
  }

  /** The entries of the windows that pass the filter, in desktop order. */
  function Scanned(ws: seq<DesktopWindow>, labels: map<Handle, string>): (r: seq<WindowInfo>)
    ensures forall i :: 0 <= i < |r| ==> IsClaudeTitle(r[i].title) && r[i].state == DetectState(r[i].title)
    decreases |ws|
  {
    if ws == [] then []
    else
      var e := Entry(ws[|ws| - 1], labels);
      Scanned(ws[..|ws| - 1], labels) + (if e.Some? then [e.value] else [])
  }

  /** The sort key's first component: idle, then thinking, then unknown. */
  function Rank(s: Status): nat {
    match s
    case Idle => 0
    case Thinking => 1
    case Unknown => 2
  }

  /** `a` may come before `b` under the key `(rank, -handle)`. */
  predicate Before(a: WindowInfo, b: WindowInfo) {
    Rank(a.state) < Rank(b.state) || (Rank(a.state) == Rank(b.state) && a.handle >= b.handle)
  }

  predicate SortedByRank(s: seq<WindowInfo>) {
    forall i, j :: 0 <= i < j < |s| ==> Before(s[i], s[j])
  }

  /** Inserts `w` after every element that may precede it, keeping the order of equal keys. */
  function Insert(w: WindowInfo, s: seq<WindowInfo>): (r: seq<WindowInfo>)
    requires SortedByRank(s)
    ensures SortedByRank(r)
    ensures multiset(r) == multiset(s) + multiset{w}
    ensures forall x :: x in r ==> x == w || x in s
    decreases |s|
  {
    if s == [] then [w]
    else if !Before(s[0], w) then
      [w] + s
    else
      var r' := Insert(w, s[1..]);
      assert s == [s[0]] + s[1..];
      assert forall k :: 0 <= k < |r'| ==> Before(s[0], r'[k]) by {
        forall k | 0 <= k < |r'| ensures Before(s[0], r'[k]) {
          assert r'[k] in r';
          if r'[k] != w {
            var m :| 0 <= m < |s[1..]| && s[1..][m] == r'[k];
            assert s[m + 1] == r'[k];
          }
        }
      }
      [s[0]] + r'
  }

  /** `results.sort(key=...)`: a sorted permutation. */
  method SortByRank(ws: seq<WindowInfo>) returns (sorted: seq<WindowInfo>)
    ensures SortedByRank(sorted)
    ensures multiset(sorted) == multiset(ws)
  {
    sorted := [];
    for i := 0 to |ws|
      invariant SortedByRank(sorted)
      invariant multiset(sorted) == multiset(ws[..i])
    {
      assert ws[..i + 1] == ws[..i] + [ws[i]];
      sorted := Insert(ws[i], sorted);
    }
    assert ws[..|ws|] == ws;
  }

  /** The module globals `_windows_cache` and `_windows_cache_time` of `find_claude_windows`. */
  class WindowScanner {
    var cache: seq<WindowInfo>
    var cacheTime: int

    constructor ()
      ensures cache == [] && cacheTime == 0
    {
      cache := [];
      cacheTime := 0;
    }

    /**
      `find_claude_windows`: within 5 seconds of the last scan the cached list is
      returned; otherwise the desktop is scanned, filtered, sorted, and the result
      and the time at the end of the scan (`later`) become the cache.
    */
    method Find(now: int, later: int, desktop: seq<DesktopWindow>, labels: map<Handle, string>)
      returns (r: seq<WindowInfo>)
      modifies this
      ensures now - old(cacheTime) < 5 ==> r == old(cache) && cache == old(cache) && cacheTime == old(cacheTime)
      ensures now - old(cacheTime) >= 5 ==>
        SortedByRank(r) && multiset(r) == multiset(Scanned(desktop, labels))
        && cache == r && cacheTime == later
    {
      if now - cacheTime < 5 {
        return cache;
      }
      r := ScanWindows(desktop, labels);
      cache := r;
      cacheTime := later;
    }
  }

  /**
    The scan itself, which is all of bot.py's `find_claude_windows`: every window
    whose title and class name can be read and whose title passes the filter gives
    an entry, and the entries are sorted.
  */
  method ScanWindows(desktop: seq<DesktopWindow>, labels: map<Handle, string>) returns (r: seq<WindowInfo>)
    ensures SortedByRank(r) && multiset(r) == multiset(Scanned(desktop, labels))
  {
    var results: seq<WindowInfo> := [];
    for i := 0 to |desktop|
      invariant results == Scanned(desktop[..i], labels)
    {
      assert desktop[..i + 1][..i] == desktop[..i];
      var w := desktop[i];
      if w.title.Some? && w.className.Some? {
        var title := w.title.value;
        if IsClaudeTitle(title) {
          var st := DetectState(title);
          var shown := if w.handle in labels then labels[w.handle] else "";
          results := results + [WindowInfo(title, w.handle, w.className.value, st, shown)];
        }
      }
    }
    assert desktop[..|desktop|] == desktop;
    r := SortByRank(results);
  }

  /** Every window in the sorted scan passed the filter and carries its title's state. */
  lemma ScanEntriesFiltered(ws: seq<DesktopWindow>, labels: map<Handle, string>, r: seq<WindowInfo>)
    requires multiset(r) == multiset(Scanned(ws, labels))
    ensures forall i :: 0 <= i < |r| ==> IsClaudeTitle(r[i].title) && r[i].state == DetectState(r[i].title)
  {
    var s := Scanned(ws, labels);
    forall i | 0 <= i < |r|
      ensures IsClaudeTitle(r[i].title) && r[i].state == DetectState(r[i].title)
    {
      assert r[i] in multiset(r);
      assert r[i] in s;
    }
  }

  /** An idle window is listed before every thinking or unknown one. */
  lemma IdleFirst(r: seq<WindowInfo>, i: int, j: int)
    requires SortedByRank(r) && 0 <= i < |r| && 0 <= j < |r|
    requires r[i].state == Idle && r[j].state != Idle
    ensures i < j
  {
  }
}
