/**
 * Values shared by the models: optional values, results with an error
 * message (the source's exceptions), and the loosely typed values that the
 * Python code keeps in its metadata dictionaries.
 */
module Common {
  import opened StringUtil

  datatype Option<T> = None | Some(value: T)

  /** A computation that either yields a value or raises the named error. */
  datatype Result<T> = Ok(value: T) | Err(error: string)

  /** An octet of a file's content or of an encoded string. */
  newtype byte = x: int | 0 <= x < 256

  /** A scalar that can appear in a metadata dictionary or a JSON document. */
  datatype Value = VNull | VStr(s: string) | VInt(i: int) | VBool(b: bool)

  /** A dictionary with string keys, such as one metadata record. */
  type Record = map<string, Value>

  /** One extracted entry as every extractor yields it: the text to embed and its metadata. */
  datatype Entry = Entry(document: string, metadata: Record)

  /** Python truthiness of a scalar: `None`, `""`, `0` and `False` are false. */
  predicate Truthy(v: Value) {
    match v
    case VNull => false
    case VStr(s) => s != ""
    case VInt(i) => i != 0
    case VBool(b) => b
  }

  /** Python's `str(v)`, which is what an f-string interpolates. */
  function Show(v: Value): (r: string)
    ensures v.VStr? ==> r == v.s
    ensures v.VNull? ==> r == "None"
  {
    match v
    case VNull => "None"
    case VStr(s) => s
    case VInt(i) => IntToString(i)
    case VBool(b) => if b then "True" else "False"
  }

  /** `d.get(k, default)`. */
  function Get(d: Record, k: string, default: Value): (r: Value)
    ensures k in d ==> r == d[k]
    ensures k !in d ==> r == default
  {
    if k in d then d[k] else default
  }

  /** Python truthiness of an optional string (`None` and `""` are false). */
  predicate TruthyStr(s: Option<string>) {
    s.Some? && s.value != ""
  }

  /** Concatenation of `f(x)` over `xs`, in order (a nested loop that appends). */
  function FlatMap<T, U>(xs: seq<T>, f: T -> seq<U>): seq<U>
    decreases |xs|
  {
    if |xs| == 0 then [] else FlatMap(xs[..|xs| - 1], f) + f(xs[|xs| - 1])
  }

  /** The empty sequence is a unit of concatenation. */
  lemma AppendEmpty<T>(xs: seq<T>)
    ensures [] + xs == xs && xs + [] == xs
  {
  }

  /** Concatenation is associative. */
  lemma AppendAssoc<T>(a: seq<T>, b: seq<T>, c: seq<T>)
    ensures (a + b) + c == a + (b + c)
  {
  }

  /** Appending `f(ys[i])` to the images of the first `i` elements gives the images of the first `i + 1`. */
  lemma MapSnoc<A, B>(xs: seq<B>, ys: seq<A>, f: A -> B, i: nat)
    requires |xs| == i < |ys| && forall k :: 0 <= k < i ==> xs[k] == f(ys[k])
    ensures forall k :: 0 <= k < i + 1 ==> (xs + [f(ys[i])])[k] == f(ys[k])
  {
  }

  /** Moving `a` from the part still to come onto what is done keeps the whole. */
  lemma ConcatStep<T>(done: seq<T>, a: seq<T>, rest: seq<T>, whole: seq<T>)
    requires whole == a + rest
    ensures (done + a) + rest == done + whole
  {
  }

  /** Moving one element from the part still to do onto the part done keeps both disjoint and their union. */
  lemma SetMove<T>(todo: set<T>, done: set<T>, all: set<T>, x: T)
    requires todo !! done && todo + done == all && x in todo
    ensures (todo - {x}) !! (done + {x}) && (todo - {x}) + (done + {x}) == all
  {
  }

  /** Writing back the value a key already has leaves the map as it was. */
  lemma MapSetSame<K, V>(m: map<K, V>, k: K)
    requires k in m
    ensures m[k := m[k]] == m
  {
  }

  /** A prefix one element longer is the prefix with that element appended. */
  lemma TakeSnoc<T>(xs: seq<T>, i: nat)
    requires i < |xs|
    ensures xs[..i + 1] == xs[..i] + [xs[i]]
  {
  }

  /** A longer prefix is the shorter one followed by the slice between them. */
  lemma TakeSlice<T>(xs: seq<T>, i: nat, j: nat)
    requires i <= j <= |xs|
    ensures xs[..j] == xs[..i] + xs[i..j]
  {
  }

  /** A slice is the two slices it splits into at `j`. */
  lemma SliceSplit<T>(xs: seq<T>, i: nat, j: nat, k: nat)
    requires i <= j <= k <= |xs|
    ensures xs[i..k] == xs[i..j] + xs[j..k]
  {
  }

  lemma FlatMapSnoc<T, U>(xs: seq<T>, i: int, f: T -> seq<U>)
    requires 0 <= i < |xs|
    ensures FlatMap(xs[..i + 1], f) == FlatMap(xs[..i], f) + f(xs[i])
  {
    assert xs[..i + 1][..i] == xs[..i];
  }

  /** Everything in `FlatMap(xs, f)` comes from `f` of some element, and back. */
  lemma {:induction false} FlatMapMember<T, U>(xs: seq<T>, f: T -> seq<U>, y: U)
    ensures y in FlatMap(xs, f) <==> exists i :: 0 <= i < |xs| && y in f(xs[i])
    decreases |xs|
  {
    if |xs| > 0 {
      var init := xs[..|xs| - 1];
      FlatMapMember(init, f, y);
      if y in FlatMap(init, f) {
        var i :| 0 <= i < |init| && y in f(init[i]);
        assert init[i] == xs[i];
      }
      if exists i :: 0 <= i < |xs| && y in f(xs[i]) {
        var i :| 0 <= i < |xs| && y in f(xs[i]);
        if i < |xs| - 1 {
          assert init[i] == xs[i];
        }
      }
    }
  }

  /** What holds of every piece holds of the concatenation. */
  lemma FlatMapAll<T, U>(xs: seq<T>, f: T -> seq<U>, P: U -> bool)
    requires forall i, y :: 0 <= i < |xs| && y in f(xs[i]) ==> P(y)
    ensures forall y :: y in FlatMap(xs, f) ==> P(y)
  {
    forall y | y in FlatMap(xs, f) ensures P(y) {
      FlatMapMember(xs, f, y);
    }
  }

  lemma {:induction false} FlatMapLength<T, U>(xs: seq<T>, f: T -> seq<U>, k: nat)
    requires forall i :: 0 <= i < |xs| ==> |f(xs[i])| == k
    ensures |FlatMap(xs, f)| == k * |xs|
    decreases |xs|
  {
    if |xs| > 0 {
      FlatMapLength(xs[..|xs| - 1], f, k);
    }
  }

  /** The concatenation of a sequence of sequences, in order. */
  function Flatten<T>(bs: seq<seq<T>>): seq<T>
    decreases |bs|
  {
    if |bs| == 0 then [] else Flatten(bs[..|bs| - 1]) + bs[|bs| - 1]
  }

  /** Flattening a sequence that starts with `b` starts with `b`. */
  lemma {:induction false} FlattenCons<T>(b: seq<T>, bs: seq<seq<T>>)
    ensures Flatten([b] + bs) == b + Flatten(bs)
    decreases |bs|
  {
    if |bs| == 0 {
      assert ([b] + bs)[..0] == [];
      assert [b] + bs == [b];
    } else {
      var init := bs[..|bs| - 1];
      FlattenCons(b, init);
      assert ([b] + bs)[..|bs|] == [b] + init;
      assert Flatten(bs) == Flatten(init) + bs[|bs| - 1];
    }
  }

  /** `FlatMap` over a sequence that starts with `x` starts with `f(x)`. */
  lemma {:induction false} FlatMapCons<T, U>(x: T, xs: seq<T>, f: T -> seq<U>)
    ensures FlatMap([x] + xs, f) == f(x) + FlatMap(xs, f)
    decreases |xs|
  {
    if |xs| == 0 {
      assert ([x] + xs)[..0] == [];
      assert [x] + xs == [x];
    } else {
      var init := xs[..|xs| - 1];
      FlatMapCons(x, init, f);
      assert ([x] + xs)[..|xs|] == [x] + init;
      assert FlatMap(xs, f) == FlatMap(init, f) + f(xs[|xs| - 1]);
    }
  }

  lemma FlattenSnoc<T>(bs: seq<seq<T>>, b: seq<T>)
    ensures Flatten(bs + [b]) == Flatten(bs) + b
  {
    assert (bs + [b])[..|bs|] == bs;
  }
}
