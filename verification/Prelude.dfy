/** Values shared by every model: an absent-or-present value. */
module Prelude {

  /** A JavaScript value that may be null or undefined. */
  datatype Option<+T> = None | Some(value: T) {

    function GetOr(default: T): T {
      match this
      case Some(v) => v
      case None => default
    }
  }

  function Max(a: int, b: int): (m: int)
    ensures m >= a && m >= b && (m == a || m == b)
  {
    if a >= b then a else b
  }

  /** What JavaScript counts as white space, in String.trim as in regular expressions. */
  predicate IsSpace(ch: char) {
    var code := ch as int;
    || 0x9 <= code <= 0xD || code == 0x20 || code == 0xA0 || code == 0x1680 || 0x2000 <= code <= 0x200A
    || code == 0x2028 || code == 0x2029 || code == 0x202F || code == 0x205F || code == 0x3000 || code == 0xFEFF
  }

  /** What lets a loop pick an element of a set that is not empty. */
  lemma SomeElement<T>(s: set<T>) returns (x: T)
    requires s != {}
    ensures x in s
  {
    x :| x in s;
  }

  /** A line in which nobody stands twice. */
  ghost predicate NoRepeats<T>(line: seq<T>) {
    forall i, j | 0 <= i < j < |line| :: line[i] != line[j]
  }

  lemma {:induction false} SubsetSize<T>(a: set<T>, b: set<T>)
    requires a <= b
    ensures |a| <= |b|
  {
    if a != {} {
      var x :| x in a;
      SubsetSize(a - {x}, b - {x});
    }
  }
}
