/**
 * The `utils` helpers of src/App.jsx (and of the older SRC/App.jsx, whose
 * `sanitize` is the same text): list filtering as used by `Array.filter`,
 * `Array.find`, and `sanitize`, which is `String.replace(/[<>]/g, '')`.
 */
module Utils {
  import opened Wrappers

  /** `s.filter(keep)`: the elements that satisfy `keep`, in their original order. */
  function Filter<T>(s: seq<T>, keep: T -> bool): (r: seq<T>)
    ensures |r| <= |s|
    ensures forall i :: 0 <= i < |r| ==> keep(r[i])
  {
    if s == [] then []
    else (if keep(s[0]) then [s[0]] else []) + Filter(s[1..], keep)
  }

  /** Filtering keeps every occurrence of a kept value and drops every occurrence of the others. */
  lemma {:induction false} FilterCount<T>(s: seq<T>, keep: T -> bool, x: T)
    ensures multiset(Filter(s, keep))[x] == if keep(x) then multiset(s)[x] else 0
  {
    if s != [] {
      FilterCount(s[1..], keep, x);
      assert s == [s[0]] + s[1..];
    }
  }

  /** Filtering distributes over concatenation: it never reorders what it keeps. */
  lemma {:induction false} FilterConcat<T>(a: seq<T>, b: seq<T>, keep: T -> bool)
    ensures Filter(a + b, keep) == Filter(a, keep) + Filter(b, keep)
  {
    if a == [] {
      assert a + b == b;
    } else {
      var ab := a + b;
      assert ab[0] == a[0] && ab[1..] == a[1..] + b;
      FilterConcat(a[1..], b, keep);
      var head := if keep(a[0]) then [a[0]] else [];
      calc {
        Filter(ab, keep);
        head + Filter(a[1..] + b, keep);
        head + (Filter(a[1..], keep) + Filter(b, keep));
        Filter(a, keep) + Filter(b, keep);
      }
    }
  }

  /** A sequence is its own filter exactly when all its elements are kept. */
  lemma {:induction false} FilterKeepsAll<T>(s: seq<T>, keep: T -> bool)
    ensures Filter(s, keep) == s <==> forall i :: 0 <= i < |s| ==> keep(s[i])
  {
    if s != [] {
      FilterKeepsAll(s[1..], keep);
      if !keep(s[0]) {
        assert |Filter(s, keep)| < |s| by { assert Filter(s, keep) == Filter(s[1..], keep); }
      } else {
        assert forall i :: 1 <= i < |s| ==> s[1..][i - 1] == s[i];
      }
    }
  }

  /** `x` is the first element of `s` that satisfies `keep`. */
  ghost predicate IsFirst<T>(s: seq<T>, keep: T -> bool, x: T)
  {
    exists i :: 0 <= i < |s| && s[i] == x && keep(x) && forall j :: 0 <= j < i ==> !keep(s[j])
  }

  /** `s.find(keep)`: `None` is the `undefined` it returns when nothing satisfies `keep`. */
  function Find<T>(s: seq<T>, keep: T -> bool): (r: Option<T>)
    ensures r.Some? ==> keep(r.value)
  {
    if s == [] then None
    else if keep(s[0]) then Some(s[0])
    else Find(s[1..], keep)
  }

  /** `find` answers `undefined` exactly when no element is kept, and otherwise the first kept one. */
  lemma {:induction false} FindSpec<T>(s: seq<T>, keep: T -> bool)
    ensures Find(s, keep).None? <==> forall i :: 0 <= i < |s| ==> !keep(s[i])
    ensures Find(s, keep).Some? ==> IsFirst(s, keep, Find(s, keep).value)
  {
    if s != [] && !keep(s[0]) {
      FindSpec(s[1..], keep);
      assert forall i :: 1 <= i < |s| ==> s[i] == s[1..][i - 1];
      var o := Find(s[1..], keep);
      if o.Some? {
        var i :| 0 <= i < |s[1..]| && s[1..][i] == o.value && keep(o.value) &&
                 forall j :: 0 <= j < i ==> !keep(s[1..][j]);
        assert s[i + 1] == o.value;
        forall j | 0 <= j < i + 1 ensures !keep(s[j]) {
          if j > 0 { assert s[j] == s[1..][j - 1]; }
        }
      }
    } else if s != [] {
      assert IsFirst(s, keep, s[0]) by { assert s[0] == s[0]; }
    }
  }

  predicate IsAngle(c: char) { c == '<' || c == '>' }

  /** `utils.sanitize`: the input with every `<` and `>` removed. */
  function Sanitize(s: string): (r: string)
    ensures |r| <= |s|
    ensures forall i :: 0 <= i < |r| ==> !IsAngle(r[i])
  {
    if s == [] then []
    else (if IsAngle(s[0]) then [] else [s[0]]) + Sanitize(s[1..])
  }

  /** Every character other than `<` and `>` occurs in the result as often as in the input. */
  lemma {:induction false} SanitizeCount(s: string, c: char)
    ensures multiset(Sanitize(s))[c] == if IsAngle(c) then 0 else multiset(s)[c]
  {
    if s != [] {
      SanitizeCount(s[1..], c);
      assert s == [s[0]] + s[1..];
    }
  }

  /** Sanitising works character by character, so it keeps the order of what it keeps. */
  lemma {:induction false} SanitizeConcat(a: string, b: string)
    ensures Sanitize(a + b) == Sanitize(a) + Sanitize(b)
  {
    if a == [] {
      assert a + b == b;
    } else {
      var ab := a + b;
      assert ab[0] == a[0] && ab[1..] == a[1..] + b;
      SanitizeConcat(a[1..], b);
      var head := if IsAngle(a[0]) then [] else [a[0]];
      calc {
        Sanitize(ab);
        head + Sanitize(a[1..] + b);
        head + (Sanitize(a[1..]) + Sanitize(b));
        Sanitize(a) + Sanitize(b);
      }
    }
  }

  /** A text is left alone by sanitising exactly when it holds no `<` and no `>`. */
  lemma {:induction false} SanitizeKeepsClean(s: string)
    ensures Sanitize(s) == s <==> forall i :: 0 <= i < |s| ==> !IsAngle(s[i])
  {
    if s != [] {
      SanitizeKeepsClean(s[1..]);
      if IsAngle(s[0]) {
        assert |Sanitize(s)| < |s| by { assert Sanitize(s) == Sanitize(s[1..]); }
      } else {
        assert forall i :: 1 <= i < |s| ==> s[1..][i - 1] == s[i];
      }
    }
  }

  /** Sanitising twice is sanitising once. */
  lemma SanitizeIdempotent(s: string)
    ensures Sanitize(Sanitize(s)) == Sanitize(s)
  {
    SanitizeKeepsClean(Sanitize(s));
  }
}
