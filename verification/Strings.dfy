/** The few string operations the services rely on: substring search and ASCII case folding. */
module Strings {

  /** The Python test `part in text`. */
  predicate Contains(text: string, part: string) {
    exists i | 0 <= i <= |text| - |part| :: OccursAt(text, part, i)
  }

  predicate OccursAt(text: string, part: string, i: int) {
    0 <= i <= |text| - |part| && text[i..i + |part|] == part
  }

  lemma {:induction false} ContainsExactly(text: string, part: string)
    ensures Contains(text, part) <==> exists before, behind :: text == before + part + behind
  {
    if i :| 0 <= i <= |text| - |part| && OccursAt(text, part, i) {
      assert text == text[..i] + part + text[i + |part|..];
    }
    if before, behind :| text == before + part + behind {
      assert OccursAt(text, part, |before|);
    }
  }

  predicate ContainsAny(text: string, parts: set<string>) {
    exists part | part in parts :: Contains(text, part)
  }

  predicate EndsWith(text: string, suffix: string) {
    |suffix| <= |text| && text[|text| - |suffix|..] == suffix
  }

  function FoldChar(c: char): char {
    if 'A' <= c <= 'Z' then c - 'A' + 'a' else c
  }

  /** `casefold` and `lower`, on the ASCII letters. */
  function Fold(text: string): (folded: string)
    ensures |folded| == |text|
  {
    seq(|text|, i requires 0 <= i < |text| => FoldChar(text[i]))
  }

  predicate IsSpace(c: char) {
    c == ' ' || c == '\t' || c == '\n' || c == '\r'
  }

  function TrimLeft(text: string): string {
    if text != "" && IsSpace(text[0]) then TrimLeft(text[1..]) else text
  }

  function TrimRight(text: string): string {
    if text != "" && IsSpace(text[|text| - 1]) then TrimRight(text[..|text| - 1]) else text
  }

  /** The Python `strip`, on ASCII white space. */
  function Trim(text: string): string {
    TrimRight(TrimLeft(text))
  }

  ghost predicate AllSpace(text: string) {
    forall i | 0 <= i < |text| :: IsSpace(text[i])
  }

  lemma {:induction false} TrimLeftExactly(text: string) returns (before: string)
    ensures text == before + TrimLeft(text) && AllSpace(before)
    ensures TrimLeft(text) != "" ==> !IsSpace(TrimLeft(text)[0])
  {
    before := "";
    if text != "" && IsSpace(text[0]) {
      var more := TrimLeftExactly(text[1..]);
      before := [text[0]] + more;
      assert text == [text[0]] + text[1..];
    }
  }

  lemma {:induction false} TrimRightExactly(text: string) returns (behind: string)
    ensures text == TrimRight(text) + behind && AllSpace(behind)
    ensures TrimRight(text) != "" ==> !IsSpace(TrimRight(text)[|TrimRight(text)| - 1])
    ensures TrimRight(text) != "" ==> TrimRight(text)[0] == text[0]
  {
    behind := "";
    if text != "" && IsSpace(text[|text| - 1]) {
      var more := TrimRightExactly(text[..|text| - 1]);
      behind := more + [text[|text| - 1]];
      assert text == text[..|text| - 1] + [text[|text| - 1]];
    }
  }

  /** White space at both ends, and nothing else, is cut off. */
  lemma {:induction false} TrimExactly(text: string) returns (before: string, behind: string)
    ensures text == before + Trim(text) + behind && AllSpace(before) && AllSpace(behind)
    ensures Trim(text) != "" ==> !IsSpace(Trim(text)[0]) && !IsSpace(Trim(text)[|Trim(text)| - 1])
  {
    before := TrimLeftExactly(text);
    behind := TrimRightExactly(TrimLeft(text));
    assert text == before + (Trim(text) + behind);
  }
}
