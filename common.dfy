/** Shared value types and list helpers used by every component model. */
module Common {

  datatype Option<T> = None | Some(value: T)

  /** The outcome of a handler that either produces a new state or refuses the input. */
  datatype Result<T, E> = Ok(value: T) | Err(error: E)

  /** The text of an `<input type="number">`: the browser yields either the
      empty string or a well-formed numeric literal, whose value is `value`. */
  datatype Entry = Blank | Num(value: real)

  /** `parseFloat(text) || 0`: the value of the entry, 0 when it is blank. */
  function Parse0(e: Entry): (r: real)
    ensures e.Blank? ==> r == 0.0
    ensures e.Num? ==> r == e.value
  {
    match e
    case Blank => 0.0
    case Num(v) => v
  }

  /** `s.filter(keep)`, folded from the left as JavaScript does. */
  function Filter<T(==,!new)>(s: seq<T>, keep: T -> bool): (r: seq<T>)
    ensures |r| <= |s|
    ensures forall x :: x in r <==> x in s && keep(x)
    decreases |s|
  {
    if |s| == 0 then [] else
      Filter(s[..|s| - 1], keep) + (if keep(s[|s| - 1]) then [s[|s| - 1]] else [])
  }

  lemma {:induction false} FilterAppend<T(!new)>(a: seq<T>, b: seq<T>, keep: T -> bool)
    ensures Filter(a + b, keep) == Filter(a, keep) + Filter(b, keep)
    decreases |b|
  {
    if |b| == 0 {
      assert a + b == a;
    } else {
      var b' := b[..|b| - 1];
      assert (a + b)[..|a + b| - 1] == a + b';
      assert (a + b)[|a + b| - 1] == b[|b| - 1];
      FilterAppend(a, b', keep);
    }
  }

  /** Filtering with a test that accepts every element changes nothing. */
  lemma {:induction false} FilterAll<T(!new)>(s: seq<T>, keep: T -> bool)
    requires forall i :: 0 <= i < |s| ==> keep(s[i])
    ensures Filter(s, keep) == s
    decreases |s|
  {
    if |s| > 0 {
      FilterAll(s[..|s| - 1], keep);
      assert s[..|s| - 1] + [s[|s| - 1]] == s;
    }
  }

  /** `s.find(p)`: the first element satisfying `p`, if any. */
  function Find<T>(s: seq<T>, p: T -> bool): (r: Option<T>)
    ensures r.None? <==> forall i :: 0 <= i < |s| ==> !p(s[i])
    ensures r.Some? ==> exists i :: 0 <= i < |s| && s[i] == r.value && p(s[i])
                                    && forall j :: 0 <= j < i ==> !p(s[j])
    decreases |s|
  {
    if |s| == 0 then None
    else if p(s[0]) then Some(s[0])
    else
      var r := Find(s[1..], p);
      assert r.Some? ==> exists i :: 0 <= i < |s[1..]| && s[1..][i] == r.value && p(s[1..][i])
                                      && forall j :: 0 <= j < i ==> !p(s[1..][j]);
      assert r.Some? ==> exists i :: 1 <= i < |s| && s[i] == r.value && p(s[i])
                                      && forall j :: 1 <= j < i ==> !p(s[j]);
      assert r.None? ==> forall i :: 1 <= i < |s| ==> !p(s[i]) by {
        if r.None? {
          forall i | 1 <= i < |s| ensures !p(s[i]) { assert s[i] == s[1..][i - 1]; }
        }
      }
      r
  }

  /** `s.map(x => hit(x) ? y : x)`: every element that `hit` selects is replaced by `y`. */
  function ReplaceWhere<T>(s: seq<T>, hit: T -> bool, y: T): (r: seq<T>)
    ensures |r| == |s|
    ensures forall i :: 0 <= i < |s| ==> r[i] == if hit(s[i]) then y else s[i]
    decreases |s|
  {
    if |s| == 0 then [] else
      ReplaceWhere(s[..|s| - 1], hit, y) + [if hit(s[|s| - 1]) then y else s[|s| - 1]]
  }

  /** `s.map(x => hit(x) ? f(x) : x)`: the hits are rewritten by `f`, the rest kept. */
  function MapWhere<T>(s: seq<T>, hit: T -> bool, f: T -> T): (r: seq<T>)
    ensures |r| == |s|
    ensures forall i :: 0 <= i < |s| ==> r[i] == if hit(s[i]) then f(s[i]) else s[i]
    decreases |s|
  {
    if |s| == 0 then [] else
      MapWhere(s[..|s| - 1], hit, f) + [if hit(s[|s| - 1]) then f(s[|s| - 1]) else s[|s| - 1]]
  }
}
