/** Small value-level vocabulary shared by every module of the model:
    failure-compatible wrappers, the sequence operations the TypeScript code
    reaches for (`filter`, `slice` in consecutive batches, `map` that may
    throw), and JavaScript's numeric conversion `+s` on count strings. */
module Common {

  datatype Option<T> = None | Some(value: T)

  /** A computation that either yields a value or throws an `Error` with a message. */
  datatype Result<T> = Ok(value: T) | Err(message: string)

  function Min(a: int, b: int): (r: int)
    ensures r <= a && r <= b && (r == a || r == b)
  {
    if a < b then a else b
  }

  /** A prefix grown by the next slice is the longer prefix. */
  lemma SliceJoin<T>(s: seq<T>, i: nat, j: nat)
    requires i <= j <= |s|
    ensures s[..j] == s[..i] + s[i..j]
  {
  }

  /** Cutting a sequence in two and joining the halves gives it back. */
  lemma SplitAt<T>(s: seq<T>, n: nat)
    requires n <= |s|
    ensures s[..n] + s[n..] == s
  {
  }

  /** `Array.prototype.filter`: the elements of `s` that satisfy `p`, in order. */
  function Filter<T>(p: T -> bool, s: seq<T>): (r: seq<T>)
    ensures |r| <= |s|
    ensures forall k :: 0 <= k < |r| ==> p(r[k])
  {
    if s == [] then [] else (if p(s[0]) then [s[0]] else []) + Filter(p, s[1..])
  }

  /** Filtering distributes over concatenation, so it keeps the relative order of what it keeps. */
  lemma {:induction false} FilterAppend<T>(p: T -> bool, a: seq<T>, b: seq<T>)
    ensures Filter(p, a + b) == Filter(p, a) + Filter(p, b)
  {
    if a == [] {
      assert a + b == b;
    } else {
      assert (a + b)[0] == a[0];
      assert (a + b)[1..] == a[1..] + b;
      FilterAppend(p, a[1..], b);
    }
  }

  /** Filtering keeps exactly the elements that pass: everything kept comes from `s`,
      and every passing element of `s` is kept. */
  lemma {:induction false} FilterMembers<T>(p: T -> bool, s: seq<T>)
    ensures forall k :: 0 <= k < |Filter(p, s)| ==> Filter(p, s)[k] in s
    ensures forall k :: 0 <= k < |s| && p(s[k]) ==> s[k] in Filter(p, s)
  {
    if s != [] {
      FilterMembers(p, s[1..]);
      var r := Filter(p, s);
      var head := if p(s[0]) then [s[0]] else [];
      assert r == head + Filter(p, s[1..]);
      forall k | 0 <= k < |r| ensures r[k] in s {
        if k >= |head| {
          assert r[k] == Filter(p, s[1..])[k - |head|];
          assert r[k] in s[1..];
        }
      }
      forall k | 0 <= k < |s| && p(s[k]) ensures s[k] in r {
        if k > 0 {
          assert s[k] == s[1..][k - 1];
        }
      }
    }
  }

  /** Filtering a list grown by one element grows the result by that element if it passes. */
  lemma FilterSnoc<T>(p: T -> bool, s: seq<T>, x: T)
    ensures Filter(p, s + [x]) == Filter(p, s) + (if p(x) then [x] else [])
  {
    FilterAppend(p, s, [x]);
    assert [x][1..] == [];
  }

  /** When every element passes, filtering changes nothing. */
  lemma {:induction false} FilterAllPass<T>(p: T -> bool, s: seq<T>)
    requires forall k :: 0 <= k < |s| ==> p(s[k])
    ensures Filter(p, s) == s
  {
    if s != [] {
      FilterAllPass(p, s[1..]);
    }
  }

  /** `Array.prototype.flat` on one level of nesting. */
  function Flatten<T>(ss: seq<seq<T>>): seq<T>
  {
    if ss == [] then [] else ss[0] + Flatten(ss[1..])
  }

  lemma {:induction false} FlattenAppend<T>(a: seq<seq<T>>, b: seq<seq<T>>)
    ensures Flatten(a + b) == Flatten(a) + Flatten(b)
  {
    if a == [] {
      assert a + b == b;
    } else {
      assert (a + b)[0] == a[0];
      assert (a + b)[1..] == a[1..] + b;
      FlattenAppend(a[1..], b);
    }
  }

  /** The slices `s.slice(i, i + size)` for `i = 0, size, 2*size, ...` while `i < s.length`:
      consecutive, non-empty, at most `size` long, all but the last exactly `size` long,
      and together they are `s` again. */
  function Batches<T>(s: seq<T>, size: nat): (r: seq<seq<T>>)
    requires size >= 1
    ensures Flatten(r) == s
    ensures forall k :: 0 <= k < |r| ==> 1 <= |r[k]| <= size
    ensures forall k :: 0 <= k < |r| - 1 ==> |r[k]| == size
    decreases |s|
  {
    if s == [] then []
    else if |s| <= size then (assert Flatten([s]) == s + Flatten([]); [s])
    else
      var rest := Batches(s[size..], size);
      assert Flatten([s[..size]] + rest) == s[..size] + Flatten(rest);
      assert s[..size] + s[size..] == s;
      [s[..size]] + rest
  }

  /** Taking one more batch off the front: the batch loops of the source advance by
      `size` elements per round, and this is what their round list grows by. */
  lemma BatchesStep<T>(s: seq<T>, i: nat, size: nat)
    requires size >= 1 && i < |s|
    ensures Batches(s[i..], size) == [s[i..Min(i + size, |s|)]] + Batches(s[Min(i + size, |s|)..], size)
  {
    if |s| - i <= size {
      assert s[Min(i + size, |s|)..] == [];
      assert s[i..Min(i + size, |s|)] == s[i..];
    } else {
      assert s[i..][size..] == s[i + size..];
      assert s[i..][..size] == s[i..i + size];
    }
  }

  /** The rounds of a batch loop so far, `done`, followed by the batches of what is
      left from `i`: after one more round the same holds of `done + [that round]`. */
  lemma RoundsStep<T>(s: seq<T>, i: nat, size: nat, done: seq<seq<T>>)
    requires size >= 1 && i < |s|
    requires Batches(s, size) == done + Batches(s[i..], size)
    ensures Batches(s, size) == (done + [s[i..Min(i + size, |s|)]]) + Batches(s[Min(i + size, |s|)..], size)
  {
    BatchesStep(s, i, size);
  }

  /** `Array.prototype.map` with a callback that may throw: the first throw in
      index order ends the mapping with that error. */
  function MapAll<A, B>(f: A -> Result<B>, xs: seq<A>): (r: Result<seq<B>>)
    ensures r.Ok? <==> forall k :: 0 <= k < |xs| ==> f(xs[k]).Ok?
    ensures r.Ok? ==> |r.value| == |xs| && forall k :: 0 <= k < |xs| ==> r.value[k] == f(xs[k]).value
    ensures r.Err? ==> exists k :: 0 <= k < |xs| && f(xs[k]) == Err(r.message) &&
                                   forall j :: 0 <= j < k ==> f(xs[j]).Ok?
  {
    if xs == [] then Ok([])
    else
      match f(xs[0])
      case Err(m) => Err(m)
      case Ok(y) =>
        match MapAll(f, xs[1..])
        case Err(m) => Err(m)
        case Ok(ys) => Ok([y] + ys)
  }

  /** Mapping a concatenation succeeds exactly when both halves do, and yields both results joined. */
  lemma {:induction false} MapAllAppend<A, B>(f: A -> Result<B>, a: seq<A>, b: seq<A>)
    ensures MapAll(f, a + b).Ok? <==> MapAll(f, a).Ok? && MapAll(f, b).Ok?
    ensures MapAll(f, a + b).Ok? ==> MapAll(f, a + b).value == MapAll(f, a).value + MapAll(f, b).value
  {
    var r, ra, rb := MapAll(f, a + b), MapAll(f, a), MapAll(f, b);
    if r.Ok? {
      assert forall k :: 0 <= k < |a| ==> f(a[k]).Ok? by {
        forall k | 0 <= k < |a| ensures f(a[k]).Ok? { assert (a + b)[k] == a[k]; }
      }
      assert forall k :: 0 <= k < |b| ==> f(b[k]).Ok? by {
        forall k | 0 <= k < |b| ensures f(b[k]).Ok? { assert (a + b)[|a| + k] == b[k]; }
      }
      assert r.value == ra.value + rb.value;
    }
    if ra.Ok? && rb.Ok? {
      forall k | 0 <= k < |a + b| ensures f((a + b)[k]).Ok? {
        if k < |a| { assert (a + b)[k] == a[k]; } else { assert (a + b)[k] == b[k - |a|]; }
      }
    }
  }

  /** Floor division by repeated subtraction. */
  function FloorDiv(n: nat, d: nat): nat
    requires d >= 1
    decreases n
  {
    if n < d then 0 else 1 + FloorDiv(n - d, d)
  }

  /** `FloorDiv(n, d)` is the largest `q` with `q * d <= n`. */
  lemma {:induction false} FloorDivBounds(n: nat, d: nat)
    requires d >= 1
    ensures FloorDiv(n, d) * d <= n < FloorDiv(n, d) * d + d
    decreases n
  {
    if n >= d {
      FloorDivBounds(n - d, d);
      var q := FloorDiv(n - d, d);
      assert FloorDiv(n, d) * d == q * d + d;
    }
  }

  /** The progress figure `Math.floor((i / len) * 100)` for a batch starting at `i`,
      computed exactly (see README for the floating-point caveat). */
  function Progress(i: nat, len: nat): (r: int)
    requires i < len
    ensures 0 <= r < 100
  {
    ProgressBound(i, len);
    FloorDiv(i * 100, len)
  }

  lemma ProgressBound(i: nat, len: nat)
    requires i < len
    ensures FloorDiv(i * 100, len) < 100
  {
    FloorDivBounds(i * 100, len);
    BelowByProduct(FloorDiv(i * 100, len), 100, len);
  }

  lemma BelowByProduct(q: int, m: int, d: nat)
    requires d >= 1 && q * d < m * d
    ensures q < m
  {
    assert (q - m) * d < 0;
  }

  /** The progress figure is the floor of `i * 100 / len`: the largest whole percentage
      not above the share of items already handled. */
  lemma ProgressIsFloor(i: nat, len: nat)
    requires i < len
    ensures Progress(i, len) * len <= i * 100 < (Progress(i, len) + 1) * len
  {
    FloorDivBounds(i * 100, len);
    var q := Progress(i, len);
    assert (q + 1) * len == q * len + len;
  }

  /** The progress values reported by a batch loop over `len` items from the batch
      starting at `from` on: one per round. */
  function ProgressFrom(from: nat, len: nat, size: nat): (r: seq<int>)
    requires size >= 1
    ensures forall k :: 0 <= k < |r| ==> 0 <= r[k] < 100
    decreases len - from
  {
    if from >= len then [] else [Progress(from, len)] + ProgressFrom(from + size, len, size)
  }

  /** The sequence of progress values reported by a batch loop over `len` items. */
  function ProgressReports(len: nat, size: nat): seq<int>
    requires size >= 1
  {
    ProgressFrom(0, len, size)
  }

  /** The reports of a batch loop so far, `done`, followed by those still to come from
      `i`: after one more round the same holds of `done` and that round's report. */
  lemma ProgressStep(len: nat, size: nat, i: nat, done: seq<int>)
    requires size >= 1 && i < len
    requires ProgressReports(len, size) == done + ProgressFrom(i, len, size)
    ensures ProgressReports(len, size) == (done + [Progress(i, len)]) + ProgressFrom(Min(i + size, len), len, size)
  {
    assert ProgressFrom(i, len, size) == [Progress(i, len)] + ProgressFrom(i + size, len, size);
  }

  /** There is one progress report per round of the batch loop. */
  lemma {:induction false} ProgressFromCount<T>(s: seq<T>, from: nat, size: nat)
    requires size >= 1 && from <= |s|
    ensures |ProgressFrom(from, |s|, size)| == |Batches(s[from..], size)|
    decreases |s| - from
  {
    if from < |s| {
      BatchesStep(s, from, size);
      if from + size >= |s| {
        assert s[Min(from + size, |s|)..] == [];
      } else {
        ProgressFromCount(s, from + size, size);
      }
    }
  }

  /** Every progress report lies in `[0, 100)`, and there is one per round. */
  lemma ProgressReportsShape<T>(s: seq<T>, size: nat)
    requires size >= 1
    ensures |ProgressReports(|s|, size)| == |Batches(s, size)|
    ensures forall k :: 0 <= k < |ProgressReports(|s|, size)| ==> 0 <= ProgressReports(|s|, size)[k] < 100
  {
    ProgressFromCount(s, 0, size);
    assert s[0..] == s;
  }

  /** Whether `i` is one of the batch starts `0, size, 2*size, ...`. */
  predicate IsBatchStart(i: nat, size: nat)
    requires size >= 1
  {
    i == 0 || (i >= size && IsBatchStart(i - size, size))
  }

  lemma NextBatchStart(i: nat, size: nat)
    requires size >= 1 && IsBatchStart(i, size)
    ensures IsBatchStart(i + size, size)
  {
    assert (i + size) - size == i;
  }

  /** The start of the batch that index `k` falls into: the batch start at most `k`
      and within `size` of it. */
  function BatchStart(k: nat, size: nat): (r: nat)
    requires size >= 1
    ensures r <= k < r + size
    ensures IsBatchStart(r, size)
  {
    if k < size then 0 else BatchStart(k - size, size) + size
  }

  /** Every index of the batch starting at `i` has `i` as its batch start. */
  lemma {:induction false} BatchStartInBatch(i: nat, t: nat, size: nat)
    requires size >= 1 && IsBatchStart(i, size) && t < size
    ensures BatchStart(i + t, size) == i
  {
    if i != 0 {
      BatchStartInBatch(i - size, t, size);
    }
  }

  // ---- JavaScript `+s` on the decimal strings that SPARQL COUNT results carry ----

  /** A JavaScript number as far as counts need it: an integer value, or NaN. */
  datatype JsNumber = Num(n: int) | NaN

  predicate IsDigit(c: char) { '0' <= c <= '9' }

  predicate AllDigits(s: string) { forall k :: 0 <= k < |s| ==> IsDigit(s[k]) }

  function DigitsValue(s: string): nat
    requires AllDigits(s)
  {
    if s == [] then 0 else DigitsValue(s[..|s| - 1]) * 10 + (s[|s| - 1] as int - '0' as int)
  }

  /** `+s` for strings made of decimal digits only (the empty string is 0); any other
      string is NaN here. */
  function ToNumber(s: string): (r: JsNumber)
    ensures r.Num? <==> AllDigits(s)
    ensures r.Num? ==> r.n >= 0
    ensures s == "" ==> r == Num(0)
  {
    if AllDigits(s) then Num(DigitsValue(s)) else NaN
  }

  /** Decimal rendering of a natural number, as an endpoint writes an integer literal. */
  function ShowNat(n: nat): (s: string)
    ensures |s| >= 1 && AllDigits(s)
  {
    var d := [(('0' as int) + n % 10) as char];
    if n < 10 then d else ShowNat(n / 10) + d
  }

  /** `+` reads back exactly the count that the endpoint wrote. */
  lemma {:induction false} ToNumberShowNat(n: nat)
    ensures ToNumber(ShowNat(n)) == Num(n)
  {
    var s := ShowNat(n);
    assert s[|s| - 1] as int - '0' as int == n % 10;
    if n >= 10 {
      ToNumberShowNat(n / 10);
      assert s[..|s| - 1] == ShowNat(n / 10);
    } else {
      assert s == [(('0' as int) + n) as char];
      assert s[..|s| - 1] == [];
      assert DigitsValue(s) == DigitsValue([]) * 10 + n;
    }
  }
}
