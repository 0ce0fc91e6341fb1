/** Small shared vocabulary: optional values, joining of strings and counting of characters. */
module Common {

  datatype Option<+T> = None | Some(value: T) {
    /** The value, or `default` when there is none (JavaScript's `??`). */
    function GetOr(default: T): T {
      match this
      case Some(v) => v
      case None => default
    }
  }

  /** `parts.join(sep)`: the parts with `sep` between neighbours. */
  function Join(parts: seq<string>, sep: string): string
  {
    if parts == [] then ""
    else if |parts| == 1 then parts[0]
    else parts[0] + sep + Join(parts[1..], sep)
  }

  /** Number of occurrences of `c` in `s`. */
  function Occurrences(s: string, c: char): nat
  {
    if s == [] then 0 else (if s[0] == c then 1 else 0) + Occurrences(s[1..], c)
  }

  lemma {:induction false} OccurrencesAppend(a: string, b: string, c: char)
    ensures Occurrences(a + b, c) == Occurrences(a, c) + Occurrences(b, c)
  {
    if a == [] {
      assert a + b == b;
    } else {
      assert (a + b)[1..] == a[1..] + b;
      OccurrencesAppend(a[1..], b, c);
    }
  }

  lemma {:induction false} OccurrencesAbsent(s: string, c: char)
    requires c !in s
    ensures Occurrences(s, c) == 0
  {
    if s != [] {
      OccurrencesAbsent(s[1..], c);
    }
  }
}
