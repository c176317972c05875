/** JavaScript strings and what `trim` does to them. */
module JsText {
  /** One UTF-16 code unit; JavaScript's `length` and `slice` count these. */
  type CodeUnit = n: int | 0 <= n < 0x1_0000

  type Text = seq<CodeUnit>

  /** A literal of the source, as code units. */
  function Tag(s: string): (t: Text)
    ensures |t| == |s|
  {
    seq(|s|, i requires 0 <= i < |s| => if (s[i] as int) < 0x1_0000 then s[i] as int else 0xFFFD)
  }

  /** What `trim` removes. */
  predicate White(c: CodeUnit) {
    0x09 <= c <= 0x0D || c == 0x20 || c == 0xA0 || c == 0x1680 || 0x2000 <= c <= 0x200A ||
    c == 0x2028 || c == 0x2029 || c == 0x202F || c == 0x205F || c == 0x3000 || c == 0xFEFF
  }

  function Trim(t: Text): (r: Text)
    ensures r != [] ==> !White(r[0]) && !White(r[|r| - 1])
  {
    if t != [] && White(t[0]) then Trim(t[1..])
    else if t != [] && White(t[|t| - 1]) then Trim(t[..|t| - 1])
    else t
  }

  /** Trimming only removes: what was true of every code unit stays true. */
  lemma {:induction false} TrimKeeps(t: Text)
    ensures forall i :: 0 <= i < |Trim(t)| ==> Trim(t)[i] in t
  {
    if t != [] && White(t[0]) {
      TrimKeeps(t[1..]);
    } else if t != [] && White(t[|t| - 1]) {
      TrimKeeps(t[..|t| - 1]);
    }
  }

  lemma {:induction false} TrimShrinks(t: Text)
    ensures |Trim(t)| <= |t|
    ensures t != [] && (White(t[0]) || White(t[|t| - 1])) ==> |Trim(t)| < |t|
  {
    if t != [] && White(t[0]) {
      TrimShrinks(t[1..]);
    } else if t != [] && White(t[|t| - 1]) {
      TrimShrinks(t[..|t| - 1]);
    }
  }

  lemma {:induction false} TrimHead(t: Text)
    requires t != [] && !White(t[0])
    ensures Trim(t) != []
  {
    if White(t[|t| - 1]) {
      TrimHead(t[..|t| - 1]);
    }
  }
}
