/** Basic vocabulary shared by the whole model: optional values (pandas' NaN),
    dates as day numbers and raw observations. */
module Series {

  /** A value that may be missing; `None` plays the part of pandas' NaN. */
  datatype Option<T> = None | Some(value: T)

  /** A date is a day number: the day after `d` is `d + 1`. */
  type Date = int

  /** One observation of a raw series: its date and its value. */
  type Obs = (Date, real)

  /** Dates strictly increase along the sequence (a sorted, duplicate-free index). */
  predicate Increasing(dates: seq<Date>)
  {
    forall i, j :: 0 <= i < j < |dates| ==> dates[i] < dates[j]
  }

  /** A raw series as fetched: observations in strictly increasing date order. */
  predicate IsSeries(obs: seq<Obs>)
  {
    forall i, j :: 0 <= i < j < |obs| ==> obs[i].0 < obs[j].0
  }

  /** Distance in days between two dates. */
  function Dist(a: Date, b: Date): nat
  {
    if a <= b then b - a else a - b
  }

  /** The positions at which `mask` holds, in increasing order: selecting the
      rows of a frame with a boolean mask, `df[mask]`. */
  function Where(mask: seq<bool>): (rows: seq<nat>)
    ensures forall k :: 0 <= k < |rows| ==> rows[k] < |mask| && mask[rows[k]]
    ensures forall k, l :: 0 <= k < l < |rows| ==> rows[k] < rows[l]
    ensures forall i :: 0 <= i < |mask| && mask[i] ==> i in rows
  {
    if mask == [] then []
    else Where(mask[..|mask| - 1]) + (if mask[|mask| - 1] then [|mask| - 1] else [])
  }

  /** A mask that holds exactly from position `s` on selects the positions
      `s, s + 1, ...` and nothing else. */
  lemma {:induction false} WhereFrom(mask: seq<bool>, s: nat)
    requires forall i :: 0 <= i < |mask| ==> (mask[i] <==> s <= i)
    ensures |Where(mask)| == if |mask| <= s then 0 else |mask| - s
    ensures forall k :: 0 <= k < |Where(mask)| ==> Where(mask)[k] == s + k
  {
    if mask != [] {
      var init := mask[..|mask| - 1];
      WhereFrom(init, s);
      if |mask| - 1 >= s {
        assert Where(mask) == Where(init) + [|mask| - 1];
      }
    }
  }

  /** A mask that holds nowhere selects nothing. */
  lemma {:induction false} WhereNone(mask: seq<bool>)
    requires forall j :: 0 <= j < |mask| ==> !mask[j]
    ensures Where(mask) == []
  {
    if mask != [] {
      WhereNone(mask[..|mask| - 1]);
    }
  }

  /** A mask that holds at position `i` only selects `i` alone. */
  lemma {:induction false} WhereSingle(mask: seq<bool>, i: nat)
    requires i < |mask| && mask[i]
    requires forall j :: 0 <= j < |mask| && j != i ==> !mask[j]
    ensures Where(mask) == [i]
  {
    var n := |mask|;
    var init := mask[..n - 1];
    if i == n - 1 {
      WhereNone(init);
    } else {
      WhereSingle(init, i);
    }
  }

  /** A mask that holds wherever `fewer` holds selects at least as many
      positions, and every position `fewer` selects. */
  lemma {:induction false} WhereMonotone(fewer: seq<bool>, more: seq<bool>)
    requires |fewer| == |more|
    requires forall i :: 0 <= i < |fewer| && fewer[i] ==> more[i]
    ensures |Where(fewer)| <= |Where(more)|
    ensures forall r :: r in Where(fewer) ==> r in Where(more)
  {
    if fewer != [] {
      var n := |fewer|;
      WhereMonotone(fewer[..n - 1], more[..n - 1]);
    }
  }

  /** The values present in `os`, in order: building a table from the rows
      that were produced, skipping the ones that were not. */
  function Present<T>(os: seq<Option<T>>): (vs: seq<T>)
    ensures |vs| <= |os|
  {
    if os == [] then []
    else Present(os[..|os| - 1]) + (if os[|os| - 1].Some? then [os[|os| - 1].value] else [])
  }

  /** Looking at one more entry adds its value, if it has one. */
  lemma PresentStep<T>(os: seq<Option<T>>, k: nat)
    requires k < |os|
    ensures Present(os[..k + 1]) == Present(os[..k]) + (if os[k].Some? then [os[k].value] else [])
  {
    assert os[..k + 1][..k] == os[..k];
  }

  /** When the entries that have a value form a leading run, the values
      present are exactly that run's values, in order. */
  lemma {:induction false} PresentLeading<T>(os: seq<Option<T>>)
    requires forall k, l :: 0 <= k < l < |os| && os[l].Some? ==> os[k].Some?
    ensures forall k :: 0 <= k < |Present(os)| ==> os[k] == Some(Present(os)[k])
    ensures forall k :: |Present(os)| <= k < |os| ==> os[k].None?
  {
    if os != [] {
      var n := |os|;
      var init := os[..n - 1];
      PresentLeading(init);
      var prev := Present(init);
      assert Present(os) == prev + (if os[n - 1].Some? then [os[n - 1].value] else []);
    }
  }
}
