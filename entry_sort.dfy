/** Ordering entries by name: `entries.sort_by(|a, b| a.0.cmp(&b.0))`. The
    standard library's sort is stable; it is specified here by a stable insertion
    sort together with its three promises: sorted, a permutation, and entries
    with equal names kept in their original order. */
module EntrySort {
  import opened Json

  /** `String::cmp` as "at most": lexicographic by character. */
  predicate NameLe(a: string, b: string)
  {
    a == [] || (b != [] && (a[0] < b[0] || (a[0] == b[0] && NameLe(a[1..], b[1..]))))
  }

  predicate Sorted(es: seq<Entry>)
  {
    forall i, j :: 0 <= i < j < |es| ==> NameLe(es[i].0, es[j].0)
  }

  /** The entries named `n`, in order. */
  function Named(es: seq<Entry>, n: string): seq<Entry>
  {
    if es == [] then [] else (if es[0].0 == n then [es[0]] else []) + Named(es[1..], n)
  }

  /** Insert `e` before the first entry whose name is not below it. */
  function Insert(e: Entry, s: seq<Entry>): seq<Entry>
  {
    if s == [] then [e]
    else if NameLe(e.0, s[0].0) then [e] + s
    else [s[0]] + Insert(e, s[1..])
  }

  function SortByName(es: seq<Entry>): seq<Entry>
  {
    if es == [] then [] else Insert(es[0], SortByName(es[1..]))
  }

  // ---------------------------------------------------------------------
  // the order on names

  lemma {:induction false} NameLeRefl(a: string)
    ensures NameLe(a, a)
  {
    if a != [] { NameLeRefl(a[1..]); }
  }

  lemma {:induction false} NameLeTotal(a: string, b: string)
    ensures NameLe(a, b) || NameLe(b, a)
  {
    if a != [] && b != [] && a[0] == b[0] { NameLeTotal(a[1..], b[1..]); }
  }

  lemma {:induction false} NameLeTrans(a: string, b: string, c: string)
    requires NameLe(a, b) && NameLe(b, c)
    ensures NameLe(a, c)
  {
    if a != [] && b != [] && c != [] && a[0] == b[0] && b[0] == c[0] {
      NameLeTrans(a[1..], b[1..], c[1..]);
    }
  }

  lemma {:induction false} NameLeAntisym(a: string, b: string)
    requires NameLe(a, b) && NameLe(b, a)
    ensures a == b
  {
    if a != [] && b != [] {
      NameLeAntisym(a[1..], b[1..]);
      assert a == [a[0]] + a[1..] && b == [b[0]] + b[1..];
    }
  }

  // ---------------------------------------------------------------------
  // insertion

  lemma {:induction false} InsertPermutes(e: Entry, s: seq<Entry>)
    ensures multiset(Insert(e, s)) == multiset(s) + multiset{e}
  {
    if s != [] && !NameLe(e.0, s[0].0) {
      InsertPermutes(e, s[1..]);
      assert s == [s[0]] + s[1..];
    }
  }

  lemma {:induction false} InsertSorted(e: Entry, s: seq<Entry>)
    requires Sorted(s)
    ensures Sorted(Insert(e, s))
  {
    if s == [] {
    } else if NameLe(e.0, s[0].0) {
      forall j | 0 < j < |s| + 1 ensures NameLe(e.0, ([e] + s)[j].0) {
        if j > 1 { NameLeTrans(e.0, s[0].0, s[j - 1].0); }
      }
    } else {
      NameLeTotal(e.0, s[0].0);
      InsertSorted(e, s[1..]);
      InsertPermutes(e, s[1..]);
      var t := Insert(e, s[1..]);
      forall j | 0 <= j < |t| ensures NameLe(s[0].0, t[j].0) {
        assert t[j] in multiset(s[1..]) + multiset{e};
        if t[j] != e {
          assert t[j] in s[1..];
        }
      }
    }
  }

  /** Entries with another name do not change which entries named `n` are there, or their order. */
  lemma {:induction false} InsertNamed(e: Entry, s: seq<Entry>, n: string)
    ensures Named(Insert(e, s), n) == Named([e] + s, n)
  {
    if s != [] && !NameLe(e.0, s[0].0) {
      InsertNamed(e, s[1..], n);
      if e.0 == n {
        NameLeRefl(e.0);
        assert s[0].0 != n;
      }
      assert ([e] + s)[1..] == s;
      assert ([e] + s[1..])[1..] == s[1..];
    }
  }

  // ---------------------------------------------------------------------
  // the sort

  /** The sorted entries are in ascending name order. */
  lemma {:induction false} SortByNameSorted(es: seq<Entry>)
    ensures Sorted(SortByName(es))
  {
    if es != [] {
      SortByNameSorted(es[1..]);
      InsertSorted(es[0], SortByName(es[1..]));
    }
  }

  /** The sorted entries are a rearrangement of the input. */
  lemma {:induction false} SortByNamePermutes(es: seq<Entry>)
    ensures multiset(SortByName(es)) == multiset(es)
  {
    if es != [] {
      SortByNamePermutes(es[1..]);
      InsertPermutes(es[0], SortByName(es[1..]));
      assert es == [es[0]] + es[1..];
    }
  }

  /** The sort is stable: entries sharing a name keep their relative order. */
  lemma {:induction false} SortByNameStable(es: seq<Entry>, n: string)
    ensures Named(SortByName(es), n) == Named(es, n)
  {
    if es != [] {
      SortByNameStable(es[1..], n);
      InsertNamed(es[0], SortByName(es[1..]), n);
      assert ([es[0]] + SortByName(es[1..]))[1..] == SortByName(es[1..]);
    }
  }

  /** Sorting sorted entries changes nothing. */
  lemma {:induction false} SortByNameSortedInput(es: seq<Entry>)
    requires Sorted(es)
    ensures SortByName(es) == es
  {
    if es != [] {
      SortByNameSortedInput(es[1..]);
      if |es| > 1 {
        assert NameLe(es[0].0, es[1].0);
      }
    }
  }
}
