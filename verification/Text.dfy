/** The string operations the models share. */
module Text {

  /** The characters str.strip() removes. */
  predicate IsSpace(c: char) {
    || c == ' ' || '\t' <= c <= '\r' || '\U{1c}' <= c <= '\U{1f}' || c == '\U{85}' || c == '\U{a0}'
    || c == '\U{1680}' || '\U{2000}' <= c <= '\U{200a}' || c == '\U{2028}' || c == '\U{2029}'
    || c == '\U{202f}' || c == '\U{205f}' || c == '\U{3000}'
  }

  function RStrip(s: string): (t: string)
    ensures t <= s
    ensures t != "" ==> !IsSpace(t[|t| - 1])
    ensures forall i :: |t| <= i < |s| ==> IsSpace(s[i])
  {
    if s != "" && IsSpace(s[|s| - 1]) then RStrip(s[..|s| - 1]) else s
  }

  function LStrip(s: string): (t: string)
    ensures |t| <= |s| && t == s[|s| - |t|..]
    ensures t != "" ==> !IsSpace(t[0])
    ensures forall i :: 0 <= i < |s| - |t| ==> IsSpace(s[i])
  {
    if s != "" && IsSpace(s[0]) then LStrip(s[1..]) else s
  }

  function Strip(s: string): (t: string) {
    RStrip(LStrip(s))
  }

  lemma {:induction false} StripKeeps(s: string)
    requires s != "" && !IsSpace(s[0]) && !IsSpace(s[|s| - 1])
    ensures Strip(s) == s
  {
  }

  /** The text with every quote written twice, as a delimited identifier holds it. */
  function Doubled(text: string): (doubled: string) {
    if text == "" then ""
    else (if text[0] == '"' then "\"\"" else [text[0]]) + Doubled(text[1..])
  }

  lemma {:induction false} DoubledEnd(text: string)
    requires text != ""
    ensures var last := text[|text| - 1];
            Doubled(text) == Doubled(text[..|text| - 1]) + if last == '"' then "\"\"" else [last]
  {
    if |text| > 1 {
      DoubledEnd(text[1..]);
      assert text[1..][..|text| - 2] == text[..|text| - 1][1..];
    }
  }

  /** The order in which texts are sorted. */
  predicate LessText(a: string, b: string) {
    if b == "" then false
    else if a == "" then true
    else if a[0] != b[0] then a[0] < b[0]
    else LessText(a[1..], b[1..])
  }

  lemma {:induction false} LessTextTotal(a: string, b: string)
    ensures LessText(a, b) || LessText(b, a) || a == b
    ensures !(LessText(a, b) && LessText(b, a))
    ensures !LessText(a, a)
  {
    if a != "" && b != "" && a[0] == b[0] {
      LessTextTotal(a[1..], b[1..]);
      assert a == [a[0]] + a[1..] && b == [b[0]] + b[1..];
    }
    if a != "" {
      LessTextTotal(a[1..], a[1..]);
    }
  }

  lemma {:induction false} LessTextTransitive(a: string, b: string, c: string)
    requires LessText(a, b) && LessText(b, c)
    ensures LessText(a, c)
  {
    if a != "" && a[0] == b[0] && b[0] == c[0] {
      LessTextTransitive(a[1..], b[1..], c[1..]);
    }
  }
}
