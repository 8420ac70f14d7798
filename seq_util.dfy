/** Sequence operations shared by the domain modules. Most model a
    JavaScript array method the core relies on: `filter`, `find`, `indexOf`,
    `includes` followed by `push`, `indexOf` followed by `splice`. On
    strings, `IndexOf` and `LastIndexOf` of one character are the means by
    which the e-mail pattern is decided. */
module SeqUtil {

  datatype Option<T> = None | Some(value: T)

  /** No element occurs twice. */
  ghost predicate NoDuplicates<T>(s: seq<T>) {
    forall i, j :: 0 <= i < j < |s| ==> s[i] != s[j]
  }

  /** `Array.prototype.filter`: the elements satisfying `f`, in their order. */
  function Filter<T>(s: seq<T>, f: T -> bool): (r: seq<T>)
    ensures |r| <= |s|
    ensures forall i :: 0 <= i < |r| ==> r[i] in s && f(r[i])
    ensures forall i :: 0 <= i < |s| && f(s[i]) ==> s[i] in r
  {
    if s == [] then [] else (if f(s[0]) then [s[0]] else []) + Filter(s[1..], f)
  }

  /** Filtering distributes over concatenation, so the filtered elements
      keep the order in which they occur in the input. */
  lemma {:induction false} FilterAppend<T>(a: seq<T>, b: seq<T>, f: T -> bool)
    ensures Filter(a + b, f) == Filter(a, f) + Filter(b, f)
  {
    if a == [] {
      assert a + b == b;
    } else {
      assert (a + b)[0] == a[0];
      assert (a + b)[1..] == a[1..] + b;
      FilterAppend(a[1..], b, f);
    }
  }

  /** The filter keeps every element exactly when every element passes. */
  lemma {:induction false} FilterKeepsAll<T>(s: seq<T>, f: T -> bool)
    ensures |Filter(s, f)| == |s| <==> forall i :: 0 <= i < |s| ==> f(s[i])
  {
    if s != [] {
      FilterKeepsAll(s[1..], f);
      assert forall i :: 1 <= i < |s| ==> s[i] == s[1..][i - 1];
      if !f(s[0]) {
        assert |Filter(s[1..], f)| <= |s[1..]|;
      }
    }
  }

  /** `Array.prototype.find` / `findIndex`: the first index whose element
      satisfies `f`, or None when there is none. */
  function Find<T>(s: seq<T>, f: T -> bool): (r: Option<nat>)
    ensures r.Some? ==> r.value < |s| && f(s[r.value])
    ensures r.Some? ==> forall j :: 0 <= j < r.value ==> !f(s[j])
    ensures r.None? <==> forall j :: 0 <= j < |s| ==> !f(s[j])
  {
    if s == [] then None
    else if f(s[0]) then Some(0)
    else match Find(s[1..], f)
      case None => None
      case Some(k) => Some(k + 1)
  }

  /** `Array.prototype.indexOf`: the first index holding `x`. */
  function IndexOf<T(==)>(s: seq<T>, x: T): (r: Option<nat>)
    ensures r.Some? ==> r.value < |s| && s[r.value] == x
    ensures r.Some? ==> forall j :: 0 <= j < r.value ==> s[j] != x
    ensures r.None? <==> x !in s
  {
    if s == [] then None
    else if s[0] == x then Some(0)
    else match IndexOf(s[1..], x)
      case None => None
      case Some(k) => Some(k + 1)
  }

  /** The last index holding `x`; the e-mail check uses it to find the
      last '.' of an address. */
  function LastIndexOf<T(==)>(s: seq<T>, x: T): (r: Option<nat>)
    ensures r.Some? ==> r.value < |s| && s[r.value] == x
    ensures r.Some? ==> forall j :: r.value < j < |s| ==> s[j] != x
    ensures r.None? <==> x !in s
  {
    if s == [] then None
    else if s[|s| - 1] == x then Some(|s| - 1)
    else
      var front := s[..|s| - 1];
      assert s == front + [s[|s| - 1]];
      match LastIndexOf(front, x)
      case None => None
      case Some(k) => assert forall j :: k < j < |s| - 1 ==> s[j] == front[j]; Some(k)
  }

  /** `if (!s.includes(x)) s.push(x)`. */
  function AppendIfAbsent<T(==)>(s: seq<T>, x: T): (r: seq<T>)
    ensures x in r
    ensures |s| <= |r| && r[..|s|] == s
    ensures forall i :: 0 <= i < |r| ==> r[i] in s || r[i] == x
  {
    if x in s then s else s + [x]
  }

  /** Adding an element that is already present changes nothing. */
  lemma AppendIfAbsentIdempotent<T>(s: seq<T>, x: T)
    ensures AppendIfAbsent(AppendIfAbsent(s, x), x) == AppendIfAbsent(s, x)
  {
  }

  /** Adding only when absent never introduces a duplicate. */
  lemma AppendIfAbsentNoDuplicates<T>(s: seq<T>, x: T)
    ensures NoDuplicates(s) ==> NoDuplicates(AppendIfAbsent(s, x))
  {
    if NoDuplicates(s) && x !in s {
      var r := s + [x];
      forall i, j | 0 <= i < j < |r| ensures r[i] != r[j] {
        if j == |s| {
          assert r[i] == s[i];
        }
      }
    }
  }

  /** `const k = s.indexOf(x); if (k !== -1) s.splice(k, 1)`: remove the
      first occurrence of `x`, keeping the others in order. */
  function RemoveFirst<T(==)>(s: seq<T>, x: T): (r: seq<T>)
    ensures x !in s ==> r == s
    ensures x in s ==> exists k :: 0 <= k < |s| && s[k] == x && (forall j :: 0 <= j < k ==> s[j] != x) && r == s[..k] + s[k + 1..]
  {
    match IndexOf(s, x)
    case None => s
    case Some(k) => s[..k] + s[k + 1..]
  }

  /** Removing an element that was just appended to a list without it
      gives the original list back. */
  lemma {:induction false} RemoveAfterAppend<T>(s: seq<T>, x: T)
    requires x !in s
    ensures RemoveFirst(s + [x], x) == s
  {
    var t := s + [x];
    assert t[|s|] == x;
    assert forall i :: 0 <= i < |s| ==> t[i] == s[i] && t[i] != x;
    var k := IndexOf(t, x).value;
    assert k == |s|;
    assert t[..k] + t[k + 1..] == s;
  }

  /** In a duplicate-free list the removal takes the element out entirely
      and keeps the list duplicate-free. */
  lemma {:induction false} RemoveFirstNoDuplicates<T>(s: seq<T>, x: T)
    requires NoDuplicates(s)
    ensures NoDuplicates(RemoveFirst(s, x))
    ensures x !in RemoveFirst(s, x)
    ensures forall i :: 0 <= i < |s| && s[i] != x ==> s[i] in RemoveFirst(s, x)
  {
    match IndexOf(s, x)
    case None =>
    case Some(k) =>
      RemoveFirstShape(s, x, k);
      var r := RemoveFirst(s, x);
      forall i, j | 0 <= i < j < |r| ensures r[i] != r[j] {
        assert Skip(i, k) < Skip(j, k);
      }
      forall i | 0 <= i < |r| ensures r[i] != x {
        assert Skip(i, k) != k;
      }
      forall i | 0 <= i < |s| && s[i] != x ensures s[i] in r {
        var i' := if i < k then i else i - 1;
        assert Skip(i', k) == i;
        assert r[i'] == s[i];
      }
  }

  /** The index in the original list of position `i` after removing
      position `k`. */
  function Skip(i: nat, k: nat): nat
  {
    if i < k then i else i + 1
  }

  /** Removing the element at `k` shifts every later element one place
      to the front. */
  lemma RemoveFirstShape<T>(s: seq<T>, x: T, k: nat)
    requires IndexOf(s, x) == Some(k)
    ensures |RemoveFirst(s, x)| == |s| - 1
    ensures forall i :: 0 <= i < |s| - 1 ==> RemoveFirst(s, x)[i] == s[Skip(i, k)]
  {
    var r := s[..k] + s[k + 1..];
    assert RemoveFirst(s, x) == r;
    forall i | 0 <= i < |r| ensures r[i] == s[Skip(i, k)] {
    }
  }
}
