/**
 The small part of Java's semantics that the table models and the main window
 rely on: references that may be null, the two exceptions a row lookup can
 raise, `java.util.List.size()`/`get(int)` on a possibly-null list, and class
 tokens as returned by `getColumnClass`.
 */
module JavaLang {

  /** A Java reference: `None` is `null`. */
  datatype Option<+T> = None | Some(value: T)

  /** The unchecked exceptions a row lookup can raise. */
  datatype Exception = NullPointerException | IndexOutOfBoundsException

  /** How a Java call ends: with a value, or by throwing. */
  datatype Outcome<+T> = Returned(value: T) | Threw(exception: Exception)

  /** A `java.lang.Class` object, identified by its fully qualified name. */
  datatype JavaClass = JavaClass(qualifiedName: string)

  /** `list.size()`: throws on a null list. */
  function SizeOf<E>(list: Option<seq<E>>): (r: Outcome<int>)
    ensures r.Threw? <==> list.None?
    ensures r.Threw? ==> r.exception == NullPointerException
    ensures r.Returned? ==> r.value == |list.value|
  {
    match list
    case None => Threw(NullPointerException)
    case Some(s) => Returned(|s|)
  }

  /** `list.get(index)`: throws on a null list and on an index outside `0 .. size()-1`. */
  function ListGet<E>(list: Option<seq<E>>, index: int): (r: Outcome<E>)
    ensures r.Returned? <==> list.Some? && 0 <= index < |list.value|
    ensures r.Returned? ==> r.value == list.value[index]
    ensures list.None? ==> r == Threw(NullPointerException)
    ensures list.Some? && !(0 <= index < |list.value|) ==> r == Threw(IndexOutOfBoundsException)
  {
    match list
    case None => Threw(NullPointerException)
    case Some(s) => if 0 <= index < |s| then Returned(s[index]) else Threw(IndexOutOfBoundsException)
  }
}

/**
 `String.toLowerCase()` restricted to ASCII, and `String.indexOf(String)` with
 positions counted in Unicode scalar values (Dafny's `char`) rather than in
 Java's UTF-16 code units.
 */
module JavaStrings {

  /** Lower-cases one ASCII letter and leaves every other character alone. */
  function LowerChar(c: char): char
  {
    if 'A' <= c <= 'Z' then (c as int + 32) as char else c
  }

  /** Upper-cases one ASCII letter and leaves every other character alone. */
  function UpperChar(c: char): char
  {
    if 'a' <= c <= 'z' then (c as int - 32) as char else c
  }

  /** `s.toLowerCase()`, character by character. */
  function ToLowerCase(s: string): (r: string)
    ensures |r| == |s|
    ensures forall i :: 0 <= i < |s| ==> r[i] == LowerChar(s[i])
  {
    if s == [] then [] else [LowerChar(s[0])] + ToLowerCase(s[1..])
  }

  /** `s.toUpperCase()`, character by character. */
  function ToUpperCase(s: string): (r: string)
    ensures |r| == |s|
    ensures forall i :: 0 <= i < |s| ==> r[i] == UpperChar(s[i])
  {
    if s == [] then [] else [UpperChar(s[0])] + ToUpperCase(s[1..])
  }

  /** Lower-casing twice is lower-casing once. */
  lemma LowerIdempotent(s: string)
    ensures ToLowerCase(ToLowerCase(s)) == ToLowerCase(s)
  {
    var l := ToLowerCase(s);
    assert forall i :: 0 <= i < |s| ==> LowerChar(l[i]) == l[i];
  }

  /** Lower-casing forgets any earlier upper-casing. */
  lemma LowerOfUpper(s: string)
    ensures ToLowerCase(ToUpperCase(s)) == ToLowerCase(s)
  {
    var u := ToUpperCase(s);
    assert forall i :: 0 <= i < |s| ==> LowerChar(u[i]) == LowerChar(s[i]);
  }

  /** Lower-casing works piecewise over a concatenation. */
  lemma {:induction false} LowerConcat(a: string, b: string)
    ensures ToLowerCase(a + b) == ToLowerCase(a) + ToLowerCase(b)
  {
    if a == [] {
      assert a + b == b;
    } else {
      assert (a + b)[0] == a[0] && (a + b)[1..] == a[1..] + b;
      LowerConcat(a[1..], b);
    }
  }

  /** `t` occurs in `s` starting at position `i`. */
  predicate OccursAt(s: string, t: string, i: int)
  {
    0 <= i <= |s| - |t| && s[i..i + |t|] == t
  }

  /** `t` occurs somewhere in `s`. */
  ghost predicate Occurs(s: string, t: string)
  {
    exists i :: OccursAt(s, t, i)
  }

  /** The first position at or after `from` where `t` occurs in `s`, or -1. */
  function IndexOfFrom(s: string, t: string, from: nat): (r: int)
    decreases |s| + 1 - from
    ensures r == -1 || (from <= r && OccursAt(s, t, r))
    ensures r == -1 ==> forall i :: from <= i ==> !OccursAt(s, t, i)
    ensures r != -1 ==> forall i :: from <= i < r ==> !OccursAt(s, t, i)
  {
    if from + |t| > |s| then -1
    else if s[from..from + |t|] == t then from
    else IndexOfFrom(s, t, from + 1)
  }

  /**
   `s.indexOf(t)`: the first position where `t` occurs in `s`, or -1 when it
   does not. Positions count scalar values, not UTF-16 units, so only the sign
   is certain to agree with Java's result.
   */
  function IndexOf(s: string, t: string): (r: int)
    ensures r >= -1
    ensures r >= 0 <==> Occurs(s, t)
    ensures r >= 0 ==> OccursAt(s, t, r) && forall i :: 0 <= i < r ==> !OccursAt(s, t, i)
  {
    IndexOfFrom(s, t, 0)
  }
}
