/** What several modules share. */
module Common {
  datatype Option<+T> = None | Some(value: T) {
    function GetOr(d: T): T { if Some? then value else d }
  }

  function Min(a: int, b: int): int { if a < b then a else b }

  function Max(a: int, b: int): int { if a < b then b else a }

  function Pow2(n: nat): nat { if n == 0 then 1 else 2 * Pow2(n - 1) }

  /** Lower-casing of an ASCII letter. */
  function LowerChar(c: char): char { if 'A' <= c <= 'Z' then c - 'A' + 'a' else c }

  lemma AppendOne<T>(s: seq<T>, x: T, rest: seq<T>)
    ensures s + ([x] + rest) == (s + [x]) + rest
  {
  }
}
