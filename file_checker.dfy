/**
 * The viewer's change detector: every call lists the project directory
 * recursively and compares the listing with the one taken on the previous
 * call, using two maps that swap roles after each call.
 */
module FileWatch {

  /** One entry of the recursive listing: the folders leading to it, its own
      file name and its last write time. */
  datatype Entry = Entry(dir: seq<string>, name: string, time: int)

  /** A map value: the time seen and whether this call has listed the name
      again. */
  datatype Stamp = Stamp(time: int, visited: bool)

  /** What an entry is looked up by. The source uses the bare file name;
      `FullPath` is the corrected key (see `RepeatedNameAlwaysChanged`). */
  datatype KeyRule = BareName | FullPath

  type Key = seq<string>

  function KeyOf(rule: KeyRule, e: Entry): (k: Key)
    ensures |k| >= 1 && k[|k| - 1] == e.name
  {
    match rule
    case BareName => [e.name]
    case FullPath => e.dir + [e.name]
  }

  /** Entries whose own name is one of these are not tracked; entries inside
      such a folder still are. */
  predicate Skipped(e: Entry)
  {
    e.name == ".git" || e.name == ".backup" || e.name == ".gitignore" || e.name == ".gitattributes"
  }

  /** The keys of the tracked entries of a listing. */
  function ListedKeys(rule: KeyRule, es: seq<Entry>): set<Key>
  {
    set j | 0 <= j < |es| && !Skipped(es[j]) :: KeyOf(rule, es[j])
  }

  /** The map a listing leaves behind: every tracked key with the time of the
      last entry listed under it, not yet visited. */
  function Snapshot(rule: KeyRule, es: seq<Entry>): (m: map<Key, Stamp>)
    ensures forall k :: k in m ==> !m[k].visited
    decreases |es|
  {
    if es == [] then map[]
    else
      var m := Snapshot(rule, es[..|es| - 1]);
      var e := es[|es| - 1];
      if Skipped(e) then m else m[KeyOf(rule, e) := Stamp(e.time, false)]
  }

  /** A tracked entry that is new, or whose time differs from the one seen
      on the previous call. */
  predicate FreshAt(prev: map<Key, Stamp>, rule: KeyRule, e: Entry)
  {
    !Skipped(e) && (KeyOf(rule, e) !in prev || prev[KeyOf(rule, e)].time != e.time)
  }

  /** What a call reports: some tracked entry is new or touched, or some key
      seen on the previous call is no longer listed. */
  predicate Changed(prev: map<Key, Stamp>, rule: KeyRule, es: seq<Entry>)
  {
    (exists j :: 0 <= j < |es| && FreshAt(prev, rule, es[j])) ||
    (exists k :: k in prev && k !in ListedKeys(rule, es))
  }

  /** The previous map once the call has marked every key it listed again. */
  function Marked(prev: map<Key, Stamp>, rule: KeyRule, es: seq<Entry>): (m: map<Key, Stamp>)
    ensures m.Keys == prev.Keys
    ensures forall k :: k in m ==> m[k].time == prev[k].time
  {
    map k | k in prev :: Stamp(prev[k].time, prev[k].visited || k in ListedKeys(rule, es))
  }

  // ---------------------------------------------------------------------
  // What the snapshot holds
  // ---------------------------------------------------------------------

  lemma ListedKeysSnoc(rule: KeyRule, es: seq<Entry>, e: Entry)
    ensures ListedKeys(rule, es + [e]) ==
      ListedKeys(rule, es) + (if Skipped(e) then {} else {KeyOf(rule, e)})
  {
    var all := es + [e];
    forall k | k in ListedKeys(rule, all)
      ensures k in ListedKeys(rule, es) + (if Skipped(e) then {} else {KeyOf(rule, e)})
    {
      var j :| 0 <= j < |all| && !Skipped(all[j]) && KeyOf(rule, all[j]) == k;
      if j < |es| { assert all[j] == es[j]; }
    }
    forall k | k in ListedKeys(rule, es)
      ensures k in ListedKeys(rule, all)
    {
      var j :| 0 <= j < |es| && !Skipped(es[j]) && KeyOf(rule, es[j]) == k;
      assert all[j] == es[j];
    }
    if !Skipped(e) {
      assert all[|es|] == e;
    }
  }

  /** The snapshot's keys are exactly the tracked keys listed. */
  lemma {:induction false} SnapshotKeys(rule: KeyRule, es: seq<Entry>)
    ensures Snapshot(rule, es).Keys == ListedKeys(rule, es)
    decreases |es|
  {
    if es != [] {
      var init := es[..|es| - 1];
      SnapshotKeys(rule, init);
      ListedKeysSnoc(rule, init, es[|es| - 1]);
      assert init + [es[|es| - 1]] == es;
    }
  }

  /** Each key holds the time of the last tracked entry listed under it. */
  lemma {:induction false} SnapshotLastTime(rule: KeyRule, es: seq<Entry>, j: nat)
    requires j < |es| && !Skipped(es[j])
    requires forall l :: j < l < |es| && !Skipped(es[l]) ==> KeyOf(rule, es[l]) != KeyOf(rule, es[j])
    ensures KeyOf(rule, es[j]) in Snapshot(rule, es)
    ensures Snapshot(rule, es)[KeyOf(rule, es[j])].time == es[j].time
    decreases |es|
  {
    if j < |es| - 1 {
      var init := es[..|es| - 1];
      assert init[j] == es[j];
      SnapshotLastTime(rule, init, j);
    }
  }

  // ---------------------------------------------------------------------
  // What a call reports
  // ---------------------------------------------------------------------

  /** A fresh checker reports a change exactly when something is listed. */
  lemma FirstCall(rule: KeyRule, es: seq<Entry>)
    ensures Changed(map[], rule, es) <==> exists j :: 0 <= j < |es| && !Skipped(es[j])
  {
    if exists j :: 0 <= j < |es| && !Skipped(es[j]) {
      var j :| 0 <= j < |es| && !Skipped(es[j]);
      assert FreshAt(map[], rule, es[j]);
    }
  }

  /** No two tracked entries of the listing share a key. */
  predicate DistinctKeys(rule: KeyRule, es: seq<Entry>)
  {
    forall i, j :: 0 <= i < j < |es| && !Skipped(es[i]) && !Skipped(es[j]) ==> KeyOf(rule, es[i]) != KeyOf(rule, es[j])
  }

  /** Listing the same entries twice in a row reports no change the second
      time, when no two of them share a key. */
  lemma SameListingUnchanged(rule: KeyRule, es: seq<Entry>)
    requires DistinctKeys(rule, es)
    ensures !Changed(Snapshot(rule, es), rule, es)
  {
    var m := Snapshot(rule, es);
    forall j | 0 <= j < |es| && !Skipped(es[j])
      ensures !FreshAt(m, rule, es[j])
    {
      SnapshotLastTime(rule, es, j);
    }
    SnapshotKeys(rule, es);
  }

  /** A directory listing never repeats a path, so with full paths as keys the
      second of two identical calls always reports no change. */
  lemma FullPathsSettle(es: seq<Entry>)
    requires forall i, j :: 0 <= i < j < |es| ==> es[i].dir + [es[i].name] != es[j].dir + [es[j].name]
    ensures !Changed(Snapshot(FullPath, es), FullPath, es)
  {
    SameListingUnchanged(FullPath, es);
  }

  /** Two files of the same name in different folders, written at different
      times: with bare names as keys every call reports a change, even when
      nothing was written since the previous call. */
  lemma RepeatedNameAlwaysChanged(es: seq<Entry>)
    requires |es| == 2 && es[0].name == es[1].name && es[0].dir != es[1].dir
    requires es[0].time != es[1].time && !Skipped(es[0])
    ensures Changed(Snapshot(BareName, es), BareName, es)
    ensures !Changed(Snapshot(FullPath, es), FullPath, es)
  {
    assert es[..1][..0] == [];
    assert FreshAt(Snapshot(BareName, es), BareName, es[0]);
    PathsDiffer(es[0].dir, es[1].dir, es[0].name);
    FullPathsSettle(es);
  }

  lemma PathsDiffer(a: seq<string>, b: seq<string>, name: string)
    requires a != b
    ensures a + [name] != b + [name]
  {
    if |a| == |b| {
      var i :| 0 <= i < |a| && a[i] != b[i];
      assert (a + [name])[i] != (b + [name])[i];
    }
  }

  // ---------------------------------------------------------------------
  // The checker
  // ---------------------------------------------------------------------

  class FileChecker {
    /** The map of the previous call and the map this call fills; the source
        keeps them behind two references and swaps those. */
    var fileDataOld: map<Key, Stamp>
    var fileDataNew: map<Key, Stamp>

    /** Between calls no entry of the previous map is marked visited. */
    predicate Valid()
      reads this
    {
      forall k :: k in fileDataOld ==> !fileDataOld[k].visited
    }

    constructor()
      ensures fileDataOld == map[] && fileDataNew == map[] && Valid()
    {
      fileDataOld := map[];
      fileDataNew := map[];
    }

    /** `listing` is the recursive directory listing of the project folder,
        in the order the iterator yields it; `false` means no change. */
    method CheckFiles(listing: seq<Entry>) returns (result: bool)
      requires Valid()
      modifies this
      ensures Valid()
      ensures result == Changed(old(fileDataOld), BareName, listing)
      ensures fileDataOld == Snapshot(BareName, listing)
      ensures fileDataNew == Marked(old(fileDataOld), BareName, listing)
    {
      result := false;
      fileDataNew := map[];
      ghost var prev := fileDataOld;
      for i := 0 to |listing|
        invariant fileDataNew == Snapshot(BareName, listing[..i])
        invariant fileDataOld == Marked(prev, BareName, listing[..i])
        invariant result <==> exists j :: 0 <= j < i && FreshAt(prev, BareName, listing[j])
      {
        assert listing[..i + 1] == listing[..i] + [listing[i]];
        ListedKeysSnoc(BareName, listing[..i], listing[i]);
        result := Visit(listing[i], prev, listing[..i], result);
      }
      assert listing[..|listing|] == listing;
      if !result {
        result := AnyUnvisited(prev, listing);
      }
      fileDataOld, fileDataNew := fileDataNew, fileDataOld;
    }

    /** One entry of the listing: record its time, and mark it in the
        previous map or report it as new. */
    method Visit(e: Entry, ghost prev: map<Key, Stamp>, ghost before: seq<Entry>, result0: bool) returns (result: bool)
      requires fileDataNew == Snapshot(BareName, before)
      requires fileDataOld == Marked(prev, BareName, before)
      requires ListedKeys(BareName, before + [e]) ==
        ListedKeys(BareName, before) + (if Skipped(e) then {} else {KeyOf(BareName, e)})
      modifies this
      ensures fileDataNew == Snapshot(BareName, before + [e])
      ensures fileDataOld == Marked(prev, BareName, before + [e])
      ensures result == (result0 || FreshAt(prev, BareName, e))
    {
      assert (before + [e])[..|before|] == before;
      result := result0;
      if Skipped(e) {
        return;
      }
      var filename := KeyOf(BareName, e);
      fileDataNew := fileDataNew[filename := Stamp(e.time, false)];
      if filename !in fileDataOld {
        result := true;
        return;
      }
      var seen := fileDataOld[filename];
      fileDataOld := fileDataOld[filename := Stamp(seen.time, true)];
      if seen.time != e.time {
        result := true;
      }
    }

    /** The second pass over the previous map, run only when the listing
        showed no change: is some key left unvisited? */
    method AnyUnvisited(ghost prev: map<Key, Stamp>, ghost listing: seq<Entry>) returns (result: bool)
      requires forall k :: k in prev ==> !prev[k].visited
      requires fileDataOld == Marked(prev, BareName, listing)
      ensures result == exists k :: k in prev && k !in ListedKeys(BareName, listing)
    {
      result := false;
      var keys := fileDataOld.Keys;
      while keys != {}
        invariant keys <= fileDataOld.Keys
        invariant result <==> exists k :: k in fileDataOld.Keys - keys && !fileDataOld[k].visited
        decreases keys
      {
        var k :| k in keys;
        if !fileDataOld[k].visited {
          result := true;
          break;
        }
        keys := keys - {k};
      }
    }
  }
}
