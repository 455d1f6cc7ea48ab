/**
 * Document keys: the game-wide binding key of a station and the per-team
 * unlocked-entry key of a challenge.
 */
module Keys {
  import opened Stations

  /** `name.replacingOccurrences(of: "/", with: "_")`. */
  function SafeStationID(name: string): (r: string)
    ensures |r| == |name|
    ensures forall i :: 0 <= i < |r| ==> r[i] != '/'
    ensures forall i :: 0 <= i < |r| && name[i] != '/' ==> r[i] == name[i]
    ensures forall i :: 0 <= i < |r| && name[i] == '/' ==> r[i] == '_'
  {
    seq(|name|, i requires 0 <= i < |name| => if name[i] == '/' then '_' else name[i])
  }

  /** The binding keys of the sample stations are pairwise distinct. */
  lemma SampleStationIDsDistinct(i: nat, j: nat)
    requires i < j < |SampleStations|
    ensures SafeStationID(SampleStations[i].name) != SafeStationID(SampleStations[j].name)
  {
    var lengths := [14, 11, 4, 12, 14, 13, 15, 23];
    assert forall k :: 0 <= k < |SampleStations| ==> |SampleStations[k].name| == lengths[k];
    if i == 0 && j == 4 {
      assert SafeStationID(SampleStations[i].name)[0] == 'M';
      assert SafeStationID(SampleStations[j].name)[0] == 'H';
    } else {
      assert lengths[i] != lengths[j];
    }
  }

  /** The characters `[a-zA-Z0-9_]` a document key may contain. */
  predicate IsKeyChar(c: char)
  {
    ('a' <= c <= 'z') || ('A' <= c <= 'Z') || ('0' <= c <= '9') || c == '_'
  }

  predicate KeyOnly(s: string)
  {
    forall i :: 0 <= i < |s| ==> IsKeyChar(s[i])
  }

  /** Drops the run of non-key characters at the front of `s`. */
  function SkipRun(s: string): (r: string)
    ensures |r| <= |s|
    ensures r == [] || IsKeyChar(r[0])
  {
    if s == [] || IsKeyChar(s[0]) then s else SkipRun(s[1..])
  }

  /**
   * `s.replacingOccurrences(of: "[^a-zA-Z0-9_]+", with: "_", options: .regularExpression)`:
   * every maximal run of characters outside `[a-zA-Z0-9_]` becomes one `_`.
   */
  function CollapseRuns(s: string): (r: string)
    ensures KeyOnly(r)
    ensures |r| <= |s|
    decreases |s|
  {
    if s == [] then []
    else if IsKeyChar(s[0]) then [s[0]] + CollapseRuns(s[1..])
    else "_" + CollapseRuns(SkipRun(s[1..]))
  }

  /** The unlocked-entry key: `"\(station)_\(title)"` with runs collapsed. */
  function DocID(station: string, title: string): (r: string)
    ensures KeyOnly(r)
    ensures |r| <= |station| + 1 + |title|
  {
    CollapseRuns(station + "_" + title)
  }

  /** A string made only of key characters is left as it is. */
  lemma {:induction false} CollapseKeyOnly(s: string)
    requires KeyOnly(s)
    ensures CollapseRuns(s) == s
  {
    if s != [] {
      CollapseKeyOnly(s[1..]);
    }
  }

  /** Collapsing is idempotent: a key is its own key. */
  lemma CollapseIdempotent(s: string)
    ensures CollapseRuns(CollapseRuns(s)) == CollapseRuns(s)
  {
    CollapseKeyOnly(CollapseRuns(s));
  }

  /** A non-empty run of non-key characters becomes exactly one `_`. */
  lemma {:induction false} CollapseRun(s: string)
    requires s != []
    requires forall i :: 0 <= i < |s| ==> !IsKeyChar(s[i])
    ensures CollapseRuns(s) == "_"
  {
    SkipAll(s[1..]);
  }

  /**
   * A non-empty run of non-key characters followed by a key character (or by
   * nothing) becomes one `_` in front of the rest's key. With `CollapseSplit`
   * and `CollapseKeyOnly` this fixes the key of every string.
   */
  lemma CollapseRunThen(run: string, t: string)
    requires run != []
    requires forall i :: 0 <= i < |run| ==> !IsKeyChar(run[i])
    requires t == [] || IsKeyChar(t[0])
    ensures CollapseRuns(run + t) == "_" + CollapseRuns(t)
  {
    assert (run + t)[1..] == run[1..] + t;
    SkipRunThen(run[1..], t);
  }

  /** Skipping a run of non-key characters stops at the first key character after it. */
  lemma {:induction false} SkipRunThen(run: string, t: string)
    requires forall i :: 0 <= i < |run| ==> !IsKeyChar(run[i])
    requires t == [] || IsKeyChar(t[0])
    ensures SkipRun(run + t) == t
  {
    if run == [] {
      assert run + t == t;
    } else {
      assert (run + t)[1..] == run[1..] + t;
      SkipRunThen(run[1..], t);
    }
  }

  lemma {:induction false} SkipAll(s: string)
    requires forall i :: 0 <= i < |s| ==> !IsKeyChar(s[i])
    ensures SkipRun(s) == []
  {
    if s != [] {
      SkipAll(s[1..]);
    }
  }

  /**
   * Collapsing is local: a prefix that is empty or ends with a key character
   * collapses independently of what follows it.
   */
  lemma {:induction false} CollapseSplit(a: string, b: string)
    requires a == [] || IsKeyChar(a[|a| - 1])
    ensures CollapseRuns(a + b) == CollapseRuns(a) + CollapseRuns(b)
    decreases |a|
  {
    if a == [] {
      assert a + b == b;
    } else if IsKeyChar(a[0]) {
      assert (a + b)[1..] == a[1..] + b;
      CollapseSplit(a[1..], b);
    } else {
      assert (a + b)[1..] == a[1..] + b;
      SkipKeepsTail(a[1..], b);
      CollapseSplit(SkipRun(a[1..]), b);
    }
  }

  /** Skipping a run inside a prefix that ends with a key character stays inside it. */
  lemma {:induction false} SkipKeepsTail(a: string, b: string)
    requires a != [] && IsKeyChar(a[|a| - 1])
    ensures SkipRun(a + b) == SkipRun(a) + b
    ensures SkipRun(a) != [] && IsKeyChar(SkipRun(a)[|SkipRun(a)| - 1])
    ensures |SkipRun(a)| <= |a|
    decreases |a|
  {
    if !IsKeyChar(a[0]) {
      assert (a + b)[1..] == a[1..] + b;
      SkipKeepsTail(a[1..], b);
    } else {
      assert SkipRun(a) == a;
    }
  }
}
