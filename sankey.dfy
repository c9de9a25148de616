/** `make_sankey`: turns a table and an ordered list of stage columns into the
    node labels and index-based links of a Sankey diagram. For each adjacent
    pair of stages the rows are grouped by their two labels and the value
    column is summed; the per-pair link lists are concatenated; every
    distinct label gets a dense index; and each link's labels are replaced
    by those indices. */
module Sankey {
  import opened Common
  import opened Text

  /** One row of the input frame. `labels` holds its text cells (stage
      columns), `numbers` its numeric cells (the value column); a column
      that is absent from the map is a missing (NaN) cell in this row. */
  datatype Record = Record(labels: map<string, string>, numbers: map<string, real>)

  /** A data frame: the set of its column names and its rows. */
  datatype Frame = Frame(columns: set<string>, rows: seq<Record>)

  /** A row of `sankey_data` before the relabelling: (src, targ, values). */
  datatype Link = Link(src: string, targ: string, value: real)

  /** A row of `sankey_data` after the relabelling. */
  datatype Flow = Flow(src: nat, targ: nat, value: real)

  /** A keyword argument passed to `make_sankey`. */
  datatype Setting = Num(n: real) | Str(s: string)

  /** The node options handed to the renderer. */
  datatype NodeStyle = NodeStyle(pad: Setting, thickness: Setting, lineColor: Setting, lineWidth: Setting)

  /** What `make_sankey` hands to the renderer. */
  datatype Diagram = Diagram(labels: seq<string>, links: seq<Flow>, node: NodeStyle)

  // ---------------------------------------------------------------------
  // Group-and-sum for one pair of stage columns

  /** The group key of a row: its two labels, or None when either is
      missing (groupby drops such rows). */
  function KeyOf(r: Record, src: string, targ: string): Option<(string, string)>
  {
    if src in r.labels && targ in r.labels then Some((r.labels[src], r.labels[targ])) else None
  }

  /** A row's contribution to its group's sum: pandas' `sum` skips NaN. */
  function Amount(r: Record, vals: string): real
  {
    if vals in r.numbers then r.numbers[vals] else 0.0
  }

  /** Reference definition: the sum of the value column over the rows whose
      labels are k. */
  function Total(rows: seq<Record>, src: string, targ: string, vals: string, k: (string, string)): real
  {
    if rows == [] then 0.0
    else (if KeyOf(rows[0], src, targ) == Some(k) then Amount(rows[0], vals) else 0.0)
         + Total(rows[1..], src, targ, vals, k)
  }

  /** The label pairs that occur in the rows (rows with a missing label
      contribute none). */
  function Present(rows: seq<Record>, src: string, targ: string): set<(string, string)>
  {
    if rows == [] then {}
    else
      (match KeyOf(rows[0], src, targ) case None => {} case Some(k) => {k})
      + Present(rows[1..], src, targ)
  }

  lemma {:induction false} PresentMeans(rows: seq<Record>, src: string, targ: string, k: (string, string))
    ensures k in Present(rows, src, targ) <==> exists i :: 0 <= i < |rows| && KeyOf(rows[i], src, targ) == Some(k)
  {
    if rows != [] {
      PresentMeans(rows[1..], src, targ, k);
      if exists i :: 0 <= i < |rows[1..]| && KeyOf(rows[1..][i], src, targ) == Some(k) {
        var i :| 0 <= i < |rows[1..]| && KeyOf(rows[1..][i], src, targ) == Some(k);
        assert rows[i + 1] == rows[1..][i];
      }
      if exists i :: 0 <= i < |rows| && KeyOf(rows[i], src, targ) == Some(k) {
        var i :| 0 <= i < |rows| && KeyOf(rows[i], src, targ) == Some(k);
        if i > 0 {
          assert rows[1..][i - 1] == rows[i];
        }
      }
    }
  }

  function Key(l: Link): (string, string)
  {
    (l.src, l.targ)
  }

  /** The order of group keys: lexicographic on (src, targ). */
  predicate KeyLess(x: (string, string), y: (string, string))
  {
    Less(x.0, y.0) || (x.0 == y.0 && Less(x.1, y.1))
  }

  /** Links in strictly ascending key order, hence one per key. */
  predicate Grouped(g: seq<Link>)
  {
    forall i, j :: 0 <= i < j < |g| ==> KeyLess(Key(g[i]), Key(g[j]))
  }

  /** The keys of a list of links. */
  function Keys(g: seq<Link>): set<(string, string)>
  {
    if g == [] then {} else {Key(g[0])} + Keys(g[1..])
  }

  lemma {:induction false} KeysMeans(g: seq<Link>, k: (string, string))
    ensures k in Keys(g) <==> exists i :: 0 <= i < |g| && Key(g[i]) == k
  {
    if g != [] {
      KeysMeans(g[1..], k);
      if exists i :: 0 <= i < |g[1..]| && Key(g[1..][i]) == k {
        var i :| 0 <= i < |g[1..]| && Key(g[1..][i]) == k;
        assert g[i + 1] == g[1..][i];
      }
      if exists i :: 0 <= i < |g| && Key(g[i]) == k {
        var i :| 0 <= i < |g| && Key(g[i]) == k;
        if i > 0 {
          assert g[1..][i - 1] == g[i];
        }
      }
    }
  }

  /** In an ascending list, the first key is below every later key. */
  lemma GroupedHead(g: seq<Link>)
    requires Grouped(g) && g != []
    ensures forall k :: k in Keys(g[1..]) ==> KeyLess(Key(g[0]), k)
  {
    forall k | k in Keys(g[1..])
      ensures KeyLess(Key(g[0]), k)
    {
      KeysMeans(g[1..], k);
      var i :| 0 <= i < |g[1..]| && Key(g[1..][i]) == k;
      assert g[1..][i] == g[i + 1];
    }
  }

  /** The value of the first link with key k, or 0 when there is none. */
  function Lookup(g: seq<Link>, k: (string, string)): real
  {
    if g == [] then 0.0
    else if Key(g[0]) == k then g[0].value
    else Lookup(g[1..], k)
  }

  lemma {:induction false} LookupAbsent(g: seq<Link>, k: (string, string))
    requires k !in Keys(g)
    ensures Lookup(g, k) == 0.0
  {
    if g != [] {
      LookupAbsent(g[1..], k);
    }
  }

  /** Adds x to the group k of an ascending list of groups, opening the
      group at its place in key order if it is new. */
  function AddTo(g: seq<Link>, k: (string, string), x: real): (r: seq<Link>)
    requires Grouped(g)
    ensures Grouped(r)
    ensures Keys(r) == Keys(g) + {k}
    ensures forall k' :: Lookup(r, k') == Lookup(g, k') + (if k' == k then x else 0.0)
  {
    if g == [] then
      [Link(k.0, k.1, x)]
    else if Key(g[0]) == k then
      [g[0].(value := g[0].value + x)] + g[1..]
    else if KeyLess(k, Key(g[0])) then
      GroupedHead(g);
      assert forall k' :: k' in Keys(g) ==> KeyLess(k, k') by {
        forall k' | k' in Keys(g)
          ensures KeyLess(k, k')
        {
          if k' != Key(g[0]) {
            KeyLessTransitive(k, Key(g[0]), k');
          }
        }
      }
      KeyLessIrreflexive(k);
      LookupAbsent(g, k);
      var r := [Link(k.0, k.1, x)] + g;
      assert r[1..] == g;
      assert Grouped(r) by {
        forall i, j | 0 <= i < j < |r|
          ensures KeyLess(Key(r[i]), Key(r[j]))
        {
          if i == 0 {
            KeysMeans(g, Key(r[j]));
          }
        }
      }
      r
    else
      KeyLessTotal(k, Key(g[0]));
      GroupedHead(g);
      var rest := AddTo(g[1..], k, x);
      var r := [g[0]] + rest;
      assert r[1..] == rest;
      assert Grouped(r) by {
        forall i, j | 0 <= i < j < |r|
          ensures KeyLess(Key(r[i]), Key(r[j]))
        {
          if i == 0 {
            KeysMeans(rest, Key(r[j]));
          }
        }
      }
      r
  }

  /** `df.groupby([src, targ])[vals].sum().reset_index()`: one link per
      distinct key among the rows whose two labels are present, in
      ascending key order, carrying the sum of the value column over that
      key's rows. */
  function GroupSum(rows: seq<Record>, src: string, targ: string, vals: string): (g: seq<Link>)
    ensures Grouped(g)
    ensures Keys(g) == Present(rows, src, targ)
    ensures forall k :: Lookup(g, k) == Total(rows, src, targ, vals, k)
  {
    if rows == [] then []
    else
      var g := GroupSum(rows[1..], src, targ, vals);
      match KeyOf(rows[0], src, targ)
      case None => g
      case Some(key) => AddTo(g, key, Amount(rows[0], vals))
  }

  lemma KeyLessTransitive(x: (string, string), y: (string, string), z: (string, string))
    requires KeyLess(x, y) && KeyLess(y, z)
    ensures KeyLess(x, z)
  {
    if Less(x.0, y.0) && Less(y.0, z.0) {
      LessTransitive(x.0, y.0, z.0);
    } else if Less(x.1, y.1) && Less(y.1, z.1) {
      LessTransitive(x.1, y.1, z.1);
    }
  }

  lemma KeyLessTotal(x: (string, string), y: (string, string))
    ensures x == y || KeyLess(x, y) || KeyLess(y, x)
  {
    LessTotal(x.0, y.0);
    LessTotal(x.1, y.1);
  }

  lemma KeyLessIrreflexive(x: (string, string))
    ensures !KeyLess(x, x)
  {
    LessIrreflexive(x.0);
    LessIrreflexive(x.1);
  }

  /** In an ascending list of groups, the value stored under a link's key is
      that link's own value. */
  lemma {:induction false} LookupAt(g: seq<Link>, j: nat)
    requires Grouped(g) && j < |g|
    ensures Lookup(g, Key(g[j])) == g[j].value
  {
    if j > 0 {
      assert KeyLess(Key(g[0]), Key(g[j]));
      KeyLessIrreflexive(Key(g[j]));
      assert Grouped(g[1..]);
      LookupAt(g[1..], j - 1);
    }
  }

  /** Within one stage pair there is exactly one link per distinct pair of
      labels that occurs in the rows, and its value is the sum of the value
      column over exactly the rows carrying that pair. */
  lemma GroupSumCorrect(rows: seq<Record>, src: string, targ: string, vals: string, j: nat)
    requires j < |GroupSum(rows, src, targ, vals)|
    ensures var g := GroupSum(rows, src, targ, vals);
      && (exists i :: 0 <= i < |rows| && KeyOf(rows[i], src, targ) == Some(Key(g[j])))
      && g[j].value == Total(rows, src, targ, vals, Key(g[j]))
      && (forall i :: 0 <= i < |g| && i != j ==> Key(g[i]) != Key(g[j]))
  {
    var g := GroupSum(rows, src, targ, vals);
    KeysMeans(g, Key(g[j]));
    PresentMeans(rows, src, targ, Key(g[j]));
    LookupAt(g, j);
    forall i | 0 <= i < |g| && i != j
      ensures Key(g[i]) != Key(g[j])
    {
      KeyLessIrreflexive(Key(g[i]));
    }
  }

  /** Every pair of labels that occurs in the rows has its link. */
  lemma GroupSumComplete(rows: seq<Record>, src: string, targ: string, vals: string, i: nat)
    requires i < |rows| && KeyOf(rows[i], src, targ).Some?
    ensures KeyOf(rows[i], src, targ).value in Keys(GroupSum(rows, src, targ, vals))
    ensures exists j :: (0 <= j < |GroupSum(rows, src, targ, vals)|
                         && Key(GroupSum(rows, src, targ, vals)[j]) == KeyOf(rows[i], src, targ).value)
  {
    var g := GroupSum(rows, src, targ, vals);
    var k := KeyOf(rows[i], src, targ).value;
    assert KeyOf(rows[i], src, targ) == Some(k);
    PresentMeans(rows, src, targ, k);
    assert k in Keys(g);
    KeysMeans(g, k);
    var j :| 0 <= j < |g| && Key(g[j]) == k;
    assert 0 <= j < |g| && Key(g[j]) == KeyOf(rows[i], src, targ).value;
  }

  // ---------------------------------------------------------------------
  // All stage pairs

  /** The error `make_sankey` meets on one stage pair. `groupby` looks up
      the two stage columns, then `[vals]` looks up the value column, each
      raising KeyError when it is absent. Then `reset_index()` turns the
      summed Series, whose only column is `vals`, back into a frame by
      inserting the index levels last to first, `targ` and then `src`; it
      raises ValueError when the name it inserts is already a column. */
  function PairError(df: Frame, src: string, targ: string, vals: string): (e: Option<Error>)
    ensures src !in df.columns ==> e == Some(KeyError([src]))
    ensures src in df.columns && targ !in df.columns ==> e == Some(KeyError([targ]))
    ensures src in df.columns && targ in df.columns && vals !in df.columns ==> e == Some(KeyError([vals]))
    ensures e.Some? ==> e.value.KeyError? || e.value.ValueError?
    ensures e.None? <==>
      src in df.columns && targ in df.columns && vals in df.columns
      && src != targ && src != vals && targ != vals
    ensures e.Some? && e.value.KeyError? ==>
      && (e.value.columns == [src] || e.value.columns == [targ] || e.value.columns == [vals])
      && e.value.columns[0] !in df.columns
    ensures e.Some? && e.value.ValueError? ==>
      && src in df.columns && targ in df.columns && vals in df.columns
      && (targ == vals ==> e.value.column == targ)
      && (targ != vals ==> e.value.column == src && (src == targ || src == vals))
  {
    if src !in df.columns then Some(KeyError([src]))
    else if targ !in df.columns then Some(KeyError([targ]))
    else if vals !in df.columns then Some(KeyError([vals]))
    else if targ == vals then Some(ValueError(targ))
    else if src == targ || src == vals then Some(ValueError(src))
    else None
  }

  /** The error raised by the first failing pair among the first n stage
      pairs, if any. */
  function FirstError(df: Frame, cols: seq<string>, vals: string, n: nat): Option<Error>
    requires n == 0 || n < |cols|
  {
    if n == 0 then None
    else
      var earlier := FirstError(df, cols, vals, n - 1);
      if earlier.Some? then earlier else PairError(df, cols[n - 1], cols[n], vals)
  }

  /** Pair p fails and every pair before it passes. */
  predicate FailsFirst(df: Frame, cols: seq<string>, vals: string, p: nat)
    requires p + 1 < |cols|
  {
    PairError(df, cols[p], cols[p + 1], vals).Some?
    && forall q :: 0 <= q < p ==> PairError(df, cols[q], cols[q + 1], vals).None?
  }

  /** The first n pairs raise nothing iff every one of them passes. */
  lemma {:induction false} FirstErrorPasses(df: Frame, cols: seq<string>, vals: string, n: nat)
    requires n == 0 || n < |cols|
    ensures FirstError(df, cols, vals, n).None? <==>
      forall q :: 0 <= q < n ==> PairError(df, cols[q], cols[q + 1], vals).None?
  {
    if n > 0 {
      FirstErrorPasses(df, cols, vals, n - 1);
    }
  }

  /** The error raised is that of the first pair that fails. */
  lemma {:induction false} FirstErrorIsFirst(df: Frame, cols: seq<string>, vals: string, n: nat)
    requires n == 0 || n < |cols|
    ensures FirstError(df, cols, vals, n).Some? ==>
      exists p :: 0 <= p < n && FailsFirst(df, cols, vals, p)
        && FirstError(df, cols, vals, n) == PairError(df, cols[p], cols[p + 1], vals)
  {
    if FirstError(df, cols, vals, n).Some? {
      var p := FailingPair(df, cols, vals, n);
    }
  }

  /** The index of the pair whose error FirstError reports. */
  lemma {:induction false} FailingPair(df: Frame, cols: seq<string>, vals: string, n: nat) returns (p: nat)
    requires 0 < n < |cols| && FirstError(df, cols, vals, n).Some?
    ensures p < n && FailsFirst(df, cols, vals, p)
    ensures FirstError(df, cols, vals, n) == PairError(df, cols[p], cols[p + 1], vals)
  {
    var earlier := FirstError(df, cols, vals, n - 1);
    if earlier.Some? {
      p := FailingPair(df, cols, vals, n - 1);
    } else {
      FirstErrorPasses(df, cols, vals, n - 1);
      p := n - 1;
    }
  }

  /** The first n pairs raise nothing exactly when the value column and the
      first n + 1 stage columns all exist, no two adjacent stage columns
      among them are the same, and none of them is the value column. */
  lemma {:induction false} FirstErrorNone(df: Frame, cols: seq<string>, vals: string, n: nat)
    requires 0 < n < |cols|
    ensures FirstError(df, cols, vals, n).None? <==>
      && vals in df.columns
      && (forall j :: 0 <= j <= n ==> cols[j] in df.columns && cols[j] != vals)
      && (forall j :: 0 <= j < n ==> cols[j] != cols[j + 1])
  {
    if n > 1 {
      FirstErrorNone(df, cols, vals, n - 1);
    }
  }

  /** `sankey_data` after the first n stage pairs: their link lists
      concatenated in pair order. */
  function AllLinks(rows: seq<Record>, cols: seq<string>, vals: string, n: nat): seq<Link>
    requires n == 0 || n < |cols|
  {
    if n == 0 then []
    else AllLinks(rows, cols, vals, n - 1) + GroupSum(rows, cols[n - 1], cols[n], vals)
  }

  /** The links of the first p pairs are a prefix of those of the first n. */
  lemma {:induction false} AllLinksPrefix(rows: seq<Record>, cols: seq<string>, vals: string, p: nat, n: nat)
    requires p <= n && (n == 0 || n < |cols|)
    ensures AllLinks(rows, cols, vals, p) <= AllLinks(rows, cols, vals, n)
  {
    if p < n {
      AllLinksPrefix(rows, cols, vals, p, n - 1);
      PrefixAppend(AllLinks(rows, cols, vals, p), AllLinks(rows, cols, vals, n - 1),
                   GroupSum(rows, cols[n - 1], cols[n], vals));
    }
  }

  /** A prefix of q is a prefix of q followed by anything. */
  lemma PrefixAppend<T>(p: seq<T>, q: seq<T>, r: seq<T>)
    requires p <= q
    ensures p <= q + r
  {
    assert (q + r)[..|p|] == q[..|p|];
  }

  /** Pair p's links sit, all together, between those of pair p - 1 and
      those of pair p + 1: links from different pairs are never merged. */
  lemma PairSegment(rows: seq<Record>, cols: seq<string>, vals: string, p: nat, n: nat)
    requires p < n < |cols|
    ensures var all := AllLinks(rows, cols, vals, n);
      var lo := |AllLinks(rows, cols, vals, p)|;
      var hi := |AllLinks(rows, cols, vals, p + 1)|;
      lo <= hi <= |all| && all[lo..hi] == GroupSum(rows, cols[p], cols[p + 1], vals)
  {
    var all := AllLinks(rows, cols, vals, n);
    var before := AllLinks(rows, cols, vals, p);
    var g := GroupSum(rows, cols[p], cols[p + 1], vals);
    assert AllLinks(rows, cols, vals, p + 1) == before + g;
    AllLinksPrefix(rows, cols, vals, p + 1, n);
    SegmentOf(before, g, all);
  }

  /** In a sequence that starts with a + g, g sits right after a. */
  lemma SegmentOf<T>(a: seq<T>, g: seq<T>, all: seq<T>)
    requires a + g <= all
    ensures |a| <= |a + g| <= |all| && all[|a|..|a| + |g|] == g
  {
    assert all[..|a + g|] == a + g;
    assert all[|a|..|a| + |g|] == (a + g)[|a|..];
  }

  /** Every link of `sankey_data` lies in the block of one stage pair p
      and carries the sum of the value column over the rows whose stage-p
      and stage-(p+1) labels are its own. */
  lemma {:induction false} LinkSum(rows: seq<Record>, cols: seq<string>, vals: string, n: nat, j: nat)
    requires n < |cols| && j < |AllLinks(rows, cols, vals, n)|
    ensures var l := AllLinks(rows, cols, vals, n)[j];
      exists p :: 0 <= p < n && |AllLinks(rows, cols, vals, p)| <= j < |AllLinks(rows, cols, vals, p + 1)|
        && Key(l) in Present(rows, cols[p], cols[p + 1])
        && l.value == Total(rows, cols[p], cols[p + 1], vals, Key(l))
  {
    var all := AllLinks(rows, cols, vals, n);
    var prev := AllLinks(rows, cols, vals, n - 1);
    var g := GroupSum(rows, cols[n - 1], cols[n], vals);
    assert all == prev + g;
    if j < |prev| {
      LinkSum(rows, cols, vals, n - 1, j);
      assert all[j] == prev[j];
    } else {
      var l := g[j - |prev|];
      assert all[j] == l;
      GroupSumCorrect(rows, cols[n - 1], cols[n], vals, j - |prev|);
      PresentMeans(rows, cols[n - 1], cols[n], Key(l));
      assert Key(l) in Present(rows, cols[n - 1], cols[n]);
      var p := n - 1;
      assert |AllLinks(rows, cols, vals, p)| <= j < |AllLinks(rows, cols, vals, p + 1)|;
    }
  }

  // ---------------------------------------------------------------------
  // Labels and their indices

  function Sources(links: seq<Link>): (s: seq<string>)
    ensures |s| == |links| && forall j :: 0 <= j < |links| ==> s[j] == links[j].src
  {
    seq(|links|, j requires 0 <= j < |links| => links[j].src)
  }

  function Targets(links: seq<Link>): (s: seq<string>)
    ensures |s| == |links| && forall j :: 0 <= j < |links| ==> s[j] == links[j].targ
  {
    seq(|links|, j requires 0 <= j < |links| => links[j].targ)
  }

  predicate NoDup(s: seq<string>)
  {
    forall i, j :: 0 <= i < j < |s| ==> s[i] != s[j]
  }

  /** pandas' `unique()`: the distinct values in order of first occurrence. */
  function Unique(s: seq<string>): (r: seq<string>)
    ensures forall x :: x in r <==> x in s
  {
    if s == [] then []
    else
      var u := Unique(s[..|s| - 1]);
      assert forall x :: x in s <==> x in s[..|s| - 1] || x == s[|s| - 1];
      if s[|s| - 1] in u then u else u + [s[|s| - 1]]
  }

  /** `unique()` lists each value once. */
  lemma {:induction false} UniqueNoDup(s: seq<string>)
    ensures NoDup(Unique(s))
  {
    if s != [] {
      UniqueNoDup(s[..|s| - 1]);
    }
  }

  /** The elements of b that do not occur in a, in order. */
  function Without(b: seq<string>, a: seq<string>): (r: seq<string>)
    ensures forall x :: x in r <==> x in b && x !in a
  {
    if b == [] then []
    else
      var w := Without(b[..|b| - 1], a);
      assert forall x :: x in b <==> x in b[..|b| - 1] || x == b[|b| - 1];
      if b[|b| - 1] in a then w else w + [b[|b| - 1]]
  }

  /** Appending a value already seen leaves the distinct values as they
      were. */
  lemma UniqueSnocSeen(s: seq<string>, x: string)
    requires x in s
    ensures Unique(s + [x]) == Unique(s)
  {
    assert (s + [x])[..|s|] == s;
  }

  /** Appending a new value adds it at the end of the distinct values. */
  lemma UniqueSnocNew(s: seq<string>, x: string)
    requires x !in s
    ensures Unique(s + [x]) == Unique(s) + [x]
  {
    assert (s + [x])[..|s|] == s;
  }

  lemma WithoutSnoc(b: seq<string>, x: string, a: seq<string>)
    ensures Without(b + [x], a) == if x in a then Without(b, a) else Without(b, a) + [x]
  {
    assert (b + [x])[..|b|] == b;
  }

  /** The distinct values of a + b are those of a, in their order, followed
      by those of b not seen in a, in their order. */
  lemma {:induction false} UniqueConcat(a: seq<string>, b: seq<string>)
    ensures Unique(a + b) == Unique(a) + Unique(Without(b, a))
  {
    if b == [] {
      assert a + b == a;
      assert Unique(Without(b, a)) == [];
      assert Unique(a) + [] == Unique(a);
    } else {
      var b' := b[..|b| - 1];
      assert b == b' + [b[|b| - 1]];
      UniqueConcat(a, b');
      UniqueConcatStep(a, b', b[|b| - 1]);
    }
  }

  /** The inductive step of UniqueConcat: one more element at the end of b. */
  lemma UniqueConcatStep(a: seq<string>, b: seq<string>, x: string)
    requires Unique(a + b) == Unique(a) + Unique(Without(b, a))
    ensures Unique(a + (b + [x])) == Unique(a) + Unique(Without(b + [x], a))
  {
    var ab := a + b;
    assert a + (b + [x]) == ab + [x];
    WithoutSnoc(b, x, a);
    if x in ab {
      UniqueSnocSeen(ab, x);
      if x !in a {
        UniqueSnocSeen(Without(b, a), x);
      }
    } else {
      StepNew(a, b, x);
    }
  }

  /** The new-value case of UniqueConcatStep. */
  lemma StepNew(a: seq<string>, b: seq<string>, x: string)
    requires Unique(a + b) == Unique(a) + Unique(Without(b, a))
    requires x !in a + b
    requires Without(b + [x], a) == Without(b, a) + [x]
    ensures Unique(a + b + [x]) == Unique(a) + Unique(Without(b + [x], a))
  {
    var w := Without(b, a);
    var u, uw := Unique(a), Unique(w);
    UniqueSnocNew(a + b, x);
    UniqueSnocNew(w, x);
    calc {
      Unique(a + b + [x]);
      Unique(a + b) + [x];
      u + uw + [x];
      { AppendAssoc(u, uw, [x]); }
      u + (uw + [x]);
      u + Unique(w + [x]);
    }
  }

  /** The label list of `make_sankey`: every distinct source label in link
      order, then the target labels not already seen, in link order. */
  lemma LabelOrder(links: seq<Link>)
    ensures Unique(Sources(links) + Targets(links))
         == Unique(Sources(links)) + Unique(Without(Targets(links), Sources(links)))
  {
    UniqueConcat(Sources(links), Targets(links));
  }

  /** Every label a link uses is in the label list. */
  lemma LinkLabelsListed(links: seq<Link>)
    ensures var labels := Unique(Sources(links) + Targets(links));
      forall j :: 0 <= j < |links| ==> links[j].src in labels && links[j].targ in labels
  {
    var both := Sources(links) + Targets(links);
    forall j | 0 <= j < |links|
      ensures links[j].src in both && links[j].targ in both
    {
      assert both[j] == links[j].src && both[|links| + j] == links[j].targ;
    }
  }

  /** Every entry of the label list is the source or the target of some
      link. */
  lemma ListedLabelsUsed(links: seq<Link>)
    ensures var labels := Unique(Sources(links) + Targets(links));
      forall x :: x in labels ==> exists j :: 0 <= j < |links| && (x == links[j].src || x == links[j].targ)
  {
    var sources, targets := Sources(links), Targets(links);
    var both := sources + targets;
    forall x | x in Unique(both)
      ensures exists j :: 0 <= j < |links| && (x == links[j].src || x == links[j].targ)
    {
      assert x in both;
      var i :| 0 <= i < |both| && both[i] == x;
      if i < |links| {
        assert both[i] == sources[i];
        assert 0 <= i < |links| && x == links[i].src;
      } else {
        var j := i - |links|;
        assert both[i] == targets[j];
        assert 0 <= j < |links| && x == links[j].targ;
      }
    }
  }

  /** `{label: idx for idx, label in enumerate(labels)}`: later positions
      overwrite earlier ones. */
  function LabelIndex(labels: seq<string>): (d: map<string, nat>)
    ensures forall x :: x in d <==> x in labels
    ensures forall x :: x in d ==> d[x] < |labels| && labels[d[x]] == x
  {
    if labels == [] then map[]
    else
      var n := |labels| - 1;
      assert forall x :: x in labels <==> x in labels[..n] || x == labels[n];
      LabelIndex(labels[..n])[labels[n] := n]
  }

  /** On a list without duplicates the index of a label is its position,
      the index is injective, and its values are exactly 0 .. |labels| - 1. */
  lemma LabelIndexDense(labels: seq<string>)
    requires NoDup(labels)
    ensures var d := LabelIndex(labels);
      && (forall i :: 0 <= i < |labels| ==> d[labels[i]] == i)
      && (forall x, y :: x in d && y in d && x != y ==> d[x] != d[y])
      && (forall i :: 0 <= i < |labels| <==> i in d.Values)
  {
    var d := LabelIndex(labels);
    forall i | 0 <= i < |labels|
      ensures d[labels[i]] == i
    {
      assert labels[d[labels[i]]] == labels[i];
    }
    forall i: int | 0 <= i < |labels|
      ensures i in d.Values
    {
      assert d[labels[i]] == i;
    }
  }

  // ---------------------------------------------------------------------
  // Options and the whole operation

  /** `kwargs.get(...)` for the four node options; any other keyword (such
      as the width and height the dashboard passes) is ignored. */
  function NodeStyleOf(kwargs: map<string, Setting>): (s: NodeStyle)
    ensures "pad" in kwargs ==> s.pad == kwargs["pad"]
    ensures "pad" !in kwargs ==> s.pad == Num(15.0)
    ensures "thickness" in kwargs ==> s.thickness == kwargs["thickness"]
    ensures "thickness" !in kwargs ==> s.thickness == Num(20.0)
    ensures "line_color" in kwargs ==> s.lineColor == kwargs["line_color"]
    ensures "line_color" !in kwargs ==> s.lineColor == Str("black")
    ensures "line_width" in kwargs ==> s.lineWidth == kwargs["line_width"]
    ensures "line_width" !in kwargs ==> s.lineWidth == Num(1.0)
  {
    NodeStyle(
      if "pad" in kwargs then kwargs["pad"] else Num(15.0),
      if "thickness" in kwargs then kwargs["thickness"] else Num(20.0),
      if "line_color" in kwargs then kwargs["line_color"] else Str("black"),
      if "line_width" in kwargs then kwargs["line_width"] else Num(1.0))
  }

  /** `make_sankey(df, *cols, vals=vals, **kwargs)`, up to the figure. */
  method MakeSankey(df: Frame, cols: seq<string>, vals: string, kwargs: map<string, Setting>)
    returns (r: Result<Diagram, Error>)
    ensures |cols| < 2 ==> r == Failure(KeyError(["src"]))
    ensures |cols| >= 2 && FirstError(df, cols, vals, |cols| - 1).Some? ==>
      r == Failure(FirstError(df, cols, vals, |cols| - 1).value)
    ensures |cols| >= 2 && FirstError(df, cols, vals, |cols| - 1).None? ==> r.Success?
    ensures r.Success? ==> Draws(r.value, AllLinks(df.rows, cols, vals, |cols| - 1), kwargs)
  {
    var sankeyData := StageLinks(df, cols, vals);
    if sankeyData.Failure? {
      return Failure(sankeyData.error);
    }
    var d := BuildDiagram(sankeyData.value, kwargs);
    r := Success(d);
  }

  /** The loop of `make_sankey` that concatenates the links of every stage
      pair, then the read of `sankey_data['src']`, which fails when no pair
      was added and the frame is still empty. */
  method StageLinks(df: Frame, cols: seq<string>, vals: string) returns (r: Result<seq<Link>, Error>)
    ensures |cols| < 2 ==> r == Failure(KeyError(["src"]))
    ensures |cols| >= 2 && FirstError(df, cols, vals, |cols| - 1).Some? ==>
      r == Failure(FirstError(df, cols, vals, |cols| - 1).value)
    ensures |cols| >= 2 && FirstError(df, cols, vals, |cols| - 1).None? ==>
      r == Success(AllLinks(df.rows, cols, vals, |cols| - 1))
  {
    var sankeyData: seq<Link> := [];
    var framed := false;  // whether sankey_data has gained its src/targ/values columns
    var i := 0;
    while i < |cols| - 1
      invariant 0 <= i && (i == 0 || i < |cols|)
      invariant framed == (i > 0)
      invariant FirstError(df, cols, vals, i).None?
      invariant sankeyData == AllLinks(df.rows, cols, vals, i)
    {
      var srcCol := cols[i];
      var targCol := cols[i + 1];
      var err := PairError(df, srcCol, targCol, vals);
      if err.Some? {
        FirstErrorSticks(df, cols, vals, i + 1, |cols| - 1);
        return Failure(err.value);
      }
      var temp := GroupSum(df.rows, srcCol, targCol, vals);
      sankeyData := sankeyData + temp;
      framed := true;
      i := i + 1;
    }
    if !framed {
      return Failure(KeyError(["src"]));
    }
    r := Success(sankeyData);
  }

  /** `labels` are the distinct labels of `links`, sources first, each
      used by some link. */
  predicate Labelled(labels: seq<string>, links: seq<Link>)
  {
    && labels == Unique(Sources(links) + Targets(links))
    && NoDup(labels)
    && (forall x :: x in labels ==> exists j :: 0 <= j < |links| && (x == links[j].src || x == links[j].targ))
  }

  /** `flows` has one flow per link, in order, whose indices name that
      link's labels in `labels` and whose value is that link's value. */
  predicate Indexes(flows: seq<Flow>, labels: seq<string>, links: seq<Link>)
  {
    && |flows| == |links|
    && (forall j :: 0 <= j < |links| ==>
          && flows[j].src < |labels| && labels[flows[j].src] == links[j].src
          && flows[j].targ < |labels| && labels[flows[j].targ] == links[j].targ
          && flows[j].value == links[j].value)
  }

  /** `d` is the diagram of `links` drawn with the node options of
      `kwargs`. */
  predicate Draws(d: Diagram, links: seq<Link>, kwargs: map<string, Setting>)
  {
    Labelled(d.labels, links) && Indexes(d.links, d.labels, links) && d.node == NodeStyleOf(kwargs)
  }

  /** The label list built from the links has no duplicate and no label
      that no link uses. */
  lemma LabelsOfLinks(links: seq<Link>)
    ensures Labelled(Unique(Sources(links) + Targets(links)), links)
  {
    UniqueNoDup(Sources(links) + Targets(links));
    ListedLabelsUsed(links);
  }

  /** The labels, the label dictionary and the index-mapped links, once
      `sankey_data` is complete. */
  method BuildDiagram(links: seq<Link>, kwargs: map<string, Setting>) returns (d: Diagram)
    ensures Draws(d, links, kwargs)
  {
    var labels := Unique(Sources(links) + Targets(links));
    LabelsOfLinks(links);
    LinkLabelsListed(links);
    var labelDict := LabelIndex(labels);
    var flows := MapLabels(links, labels, labelDict);
    d := Diagram(labels, flows, NodeStyleOf(kwargs));
  }

  /** `sankey_data['src'].map(label_dict)` and the same for `targ`: each
      link's labels replaced by their indices, values and order kept. */
  method MapLabels(links: seq<Link>, labels: seq<string>, labelDict: map<string, nat>) returns (flows: seq<Flow>)
    requires forall x :: x in labelDict ==> labelDict[x] < |labels| && labels[labelDict[x]] == x
    requires forall j :: 0 <= j < |links| ==> links[j].src in labelDict && links[j].targ in labelDict
    ensures Indexes(flows, labels, links)
  {
    flows := [];
    for j := 0 to |links|
      invariant |flows| == j
      invariant forall k :: 0 <= k < j ==>
        && flows[k].src < |labels| && labels[flows[k].src] == links[k].src
        && flows[k].targ < |labels| && labels[flows[k].targ] == links[k].targ
        && flows[k].value == links[k].value
    {
      var link := links[j];
      flows := flows + [Flow(labelDict[link.src], labelDict[link.targ], link.value)];
    }
  }

  /** Once an error has been met, it is the first one for every longer
      prefix of pairs. */
  lemma {:induction false} FirstErrorSticks(df: Frame, cols: seq<string>, vals: string, p: nat, n: nat)
    requires 0 < p <= n < |cols|
    requires FirstError(df, cols, vals, p).Some?
    ensures FirstError(df, cols, vals, n) == FirstError(df, cols, vals, p)
  {
    if p < n {
      FirstErrorSticks(df, cols, vals, p, n - 1);
    }
  }
}
