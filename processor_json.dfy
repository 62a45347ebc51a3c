/** Merge and split: a list of named entries to one JSON object and back,
    each with an optional regular-expression filter on the names. */
module ProcessorJson {
  import opened Wrappers
  import opened Json

  /** The regex crate, left abstract: whether `Regex::new(pattern)` succeeds,
      and `Regex::is_match(pattern, key)` for a pattern that compiled. */
  datatype RegexEngine = RegexEngine(compiles: string -> bool, isMatch: (string, string) -> bool)

  /** The filter in force: the pattern if one is given and it compiles; none otherwise
      (an invalid pattern fails open). */
  function ActiveFilter(filter: Option<string>, re: RegexEngine): Option<string>
  {
    if filter.Some? && re.compiles(filter.value) then filter else None
  }

  /** Whether a key passes the filter in force. */
  predicate Admits(active: Option<string>, re: RegexEngine, key: string)
  {
    active.None? || re.isMatch(active.value, key)
  }

  /** `entries.into_iter().collect::<Value>()` as a map: inserted in order, so a later
      entry overwrites an earlier one with the same name. */
  function Collect(es: seq<Entry>): map<string, Value>
  {
    if es == [] then map[] else Collect(es[..|es| - 1])[es[|es| - 1].0 := es[|es| - 1].1]
  }

  /** `Iterator::filter` by name: the entries whose name the pattern matches, in order. */
  function KeepMatching(es: seq<Entry>, re: RegexEngine, pattern: string): seq<Entry>
  {
    if es == [] then []
    else (if re.isMatch(pattern, es[0].0) then [es[0]] else []) + KeepMatching(es[1..], re, pattern)
  }

  /** `merge`. */
  function Merge(entries: seq<Entry>, filter: Option<string>, re: RegexEngine): (r: Value)
    ensures r.Object?
  {
    if filter.None? then Object(Collect(entries))
    else if re.compiles(filter.value) then Object(Collect(KeepMatching(entries, re, filter.value)))
    else Object(Collect(entries))
  }

  /** `split`: the key/value pairs the filter in force admits. The order in which
      `par_drain` yields them is unspecified, so the result is a multiset. */
  function Split(m: map<string, Value>, filter: Option<string>, re: RegexEngine): multiset<Entry>
  {
    var active := ActiveFilter(filter, re);
    multiset(set k | k in m && Admits(active, re, k) :: (k, m[k]))
  }

  // ---------------------------------------------------------------------
  // collecting entries into an object

  /** The keys of the collected object are exactly the entry names. */
  lemma {:induction false} CollectKeys(es: seq<Entry>)
    ensures forall k :: k in Collect(es) <==> k in Names(es)
  {
    if es != [] {
      var init := es[..|es| - 1];
      CollectKeys(init);
      assert Names(es) == Names(init) + [es[|es| - 1].0];
    }
  }

  /** Each key holds the value of the last entry with that name. */
  lemma {:induction false} CollectLastWins(es: seq<Entry>, k: string)
    requires k in Collect(es)
    ensures exists i :: 0 <= i < |es| && es[i].0 == k && Collect(es)[k] == es[i].1 &&
                        forall j :: i < j < |es| ==> es[j].0 != k
  {
    var n := |es|;
    if es[n - 1].0 != k {
      var init := es[..n - 1];
      CollectLastWins(init, k);
      var i :| 0 <= i < |init| && init[i].0 == k && Collect(init)[k] == init[i].1 &&
               forall j :: i < j < |init| ==> init[j].0 != k;
      assert es[i] == init[i];
      assert forall j :: i < j < n ==> es[j].0 != k by {
        forall j | i < j < n ensures es[j].0 != k {
          if j < n - 1 { assert es[j] == init[j]; }
        }
      }
    } else {
      assert Collect(es)[k] == es[n - 1].1;
    }
  }

  /** Every key/value pair of the collected object is one of the entries. */
  lemma CollectPairsAreEntries(es: seq<Entry>, k: string)
    requires k in Collect(es)
    ensures (k, Collect(es)[k]) in es
  {
    CollectLastWins(es, k);
    var i :| 0 <= i < |es| && es[i].0 == k && Collect(es)[k] == es[i].1 &&
             forall j :: i < j < |es| ==> es[j].0 != k;
    assert es[i] == (k, Collect(es)[k]);
  }

  /** The kept entries are exactly the matching ones. */
  lemma {:induction false} KeepMatchingMembers(es: seq<Entry>, re: RegexEngine, pattern: string)
    ensures forall e :: e in KeepMatching(es, re, pattern) <==> e in es && re.isMatch(pattern, e.0)
  {
    if es != [] {
      KeepMatchingMembers(es[1..], re, pattern);
      assert es == [es[0]] + es[1..];
    }
  }

  // ---------------------------------------------------------------------
  // merge

  /** With no filter, the keys are exactly the entry names, and each maps to the
      value of the last entry with that name. */
  lemma MergeUnfiltered(es: seq<Entry>, re: RegexEngine, k: string)
    ensures k in Merge(es, None, re).fields <==> k in Names(es)
    ensures k in Merge(es, None, re).fields ==>
              exists i :: 0 <= i < |es| && es[i].0 == k && Merge(es, None, re).fields[k] == es[i].1 &&
                          forall j :: i < j < |es| ==> es[j].0 != k
  {
    CollectKeys(es);
    if k in Collect(es) { CollectLastWins(es, k); }
  }

  /** With a valid pattern, exactly the entries whose name matches are kept, and a
      kept key holds the value of the last entry with that name. */
  lemma MergeFiltered(es: seq<Entry>, pattern: string, re: RegexEngine, k: string)
    requires re.compiles(pattern)
    ensures k in Merge(es, Some(pattern), re).fields <==> k in Names(es) && re.isMatch(pattern, k)
    ensures k in Merge(es, Some(pattern), re).fields ==>
              exists i :: 0 <= i < |es| && es[i].0 == k && Merge(es, Some(pattern), re).fields[k] == es[i].1 &&
                          forall j :: i < j < |es| ==> es[j].0 != k
  {
    var kept := KeepMatching(es, re, pattern);
    assert Merge(es, Some(pattern), re).fields == Collect(kept);
    CollectKeys(kept);
    CollectKeys(es);
    if k in Collect(kept) {
      CollectPairsAreEntries(kept, k);
      KeepMatchingMembers(es, re, pattern);
    }
    if k in Names(es) && re.isMatch(pattern, k) {
      MatchingNameKept(es, re, pattern, k);
      CollectMatchingAgrees(es, re, pattern, k);
      CollectLastWins(es, k);
    }
  }

  /** Filtering appends the last entry exactly when its name matches. */
  lemma {:induction false} KeepMatchingSnoc(es: seq<Entry>, re: RegexEngine, pattern: string)
    requires es != []
    ensures KeepMatching(es, re, pattern) ==
              KeepMatching(es[..|es| - 1], re, pattern) +
              (if re.isMatch(pattern, es[|es| - 1].0) then [es[|es| - 1]] else [])
  {
    var n := |es|;
    if n > 1 {
      var tail := es[1..];
      KeepMatchingSnoc(tail, re, pattern);
      assert tail[..|tail| - 1] == es[..n - 1][1..];
      assert tail[|tail| - 1] == es[n - 1];
      assert es[..n - 1][0] == es[0];
    }
  }

  /** On a matching name, collecting the kept entries agrees with collecting them all. */
  lemma {:induction false} CollectMatchingAgrees(es: seq<Entry>, re: RegexEngine, pattern: string, k: string)
    requires re.isMatch(pattern, k)
    ensures k in Collect(KeepMatching(es, re, pattern)) <==> k in Collect(es)
    ensures k in Collect(es) ==> Collect(KeepMatching(es, re, pattern))[k] == Collect(es)[k]
  {
    if es != [] {
      var init := es[..|es| - 1];
      KeepMatchingSnoc(es, re, pattern);
      CollectMatchingAgrees(init, re, pattern, k);
      var last := es[|es| - 1];
      if re.isMatch(pattern, last.0) {
        var kept := KeepMatching(init, re, pattern) + [last];
        assert kept[..|kept| - 1] == KeepMatching(init, re, pattern);
      } else {
        assert KeepMatching(es, re, pattern) == KeepMatching(init, re, pattern);
        assert Collect(es) == Collect(init)[last.0 := last.1];
      }
    }
  }

  /** A matching entry name is the name of a kept entry. */
  lemma MatchingNameKept(es: seq<Entry>, re: RegexEngine, pattern: string, k: string)
    requires k in Names(es) && re.isMatch(pattern, k)
    ensures k in Names(KeepMatching(es, re, pattern))
  {
    var kept := KeepMatching(es, re, pattern);
    KeepMatchingMembers(es, re, pattern);
    var i :| 0 <= i < |es| && Names(es)[i] == k;
    assert es[i] in kept;
    var j :| 0 <= j < |kept| && kept[j] == es[i];
    assert Names(kept)[j] == k;
  }

  /** An invalid pattern is treated as no filter: every entry is kept. */
  lemma MergeInvalidPattern(es: seq<Entry>, pattern: string, re: RegexEngine)
    requires !re.compiles(pattern)
    ensures Merge(es, Some(pattern), re) == Merge(es, None, re)
  {
  }

  // ---------------------------------------------------------------------
  // split

  /** Split yields each admitted key/value pair of the map exactly once and nothing else. */
  lemma SplitCounts(m: map<string, Value>, filter: Option<string>, re: RegexEngine, e: Entry)
    ensures Split(m, filter, re)[e] ==
              if e.0 in m && m[e.0] == e.1 && Admits(ActiveFilter(filter, re), re, e.0) then 1 else 0
  {
    var active := ActiveFilter(filter, re);
    var s := set k | k in m && Admits(active, re, k) :: (k, m[k]);
    if e.0 in m && m[e.0] == e.1 && Admits(active, re, e.0) {
      assert e == (e.0, m[e.0]);
      assert e in s;
    } else {
      assert e !in s;
    }
  }

  /** With no filter, split yields every pair of the map, each once. */
  lemma SplitUnfiltered(m: map<string, Value>, re: RegexEngine, e: Entry)
    ensures Split(m, None, re)[e] == if e.0 in m && m[e.0] == e.1 then 1 else 0
  {
    SplitCounts(m, None, re, e);
  }

  /** With a valid pattern, split yields exactly the pairs whose key matches. */
  lemma SplitFiltered(m: map<string, Value>, pattern: string, re: RegexEngine, e: Entry)
    requires re.compiles(pattern)
    ensures Split(m, Some(pattern), re)[e] ==
              if e.0 in m && m[e.0] == e.1 && re.isMatch(pattern, e.0) then 1 else 0
  {
    SplitCounts(m, Some(pattern), re, e);
  }

  /** An invalid pattern is treated as no filter. */
  lemma SplitInvalidPattern(m: map<string, Value>, pattern: string, re: RegexEngine)
    requires !re.compiles(pattern)
    ensures Split(m, Some(pattern), re) == Split(m, None, re)
  {
  }

  /** Split then merge, both unfiltered, rebuilds the object, whatever order the
      split pairs come in. */
  lemma SplitMergeRoundTrip(m: map<string, Value>, order: seq<Entry>, re: RegexEngine)
    requires multiset(order) == Split(m, None, re)
    ensures Merge(order, None, re) == Object(m)
  {
    var c := Collect(order);
    CollectKeys(order);
    forall k | k in c ensures k in m && c[k] == m[k] {
      CollectPairsAreEntries(order, k);
      SplitUnfiltered(m, re, (k, c[k]));
    }
    forall k | k in m ensures k in c {
      SplitUnfiltered(m, re, (k, m[k]));
      assert (k, m[k]) in multiset(order);
      var i :| 0 <= i < |order| && order[i] == (k, m[k]);
      assert Names(order)[i] == k;
    }
    assert c == m;
  }
}
