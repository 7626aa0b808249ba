/**
 Player-name editing on the welcome and game-over screens (main.py).
 A key press is either Backspace or a key carrying the text pygame reports
 for it (`event.unicode`, empty for keys such as the arrows).
 */
module NameEntry {

  const MaxNameLength := 10

  datatype NameKey = Backspace | Typed(text: string)

  predicate IsAlnumChar(c: char) {
    ('a' <= c <= 'z') || ('A' <= c <= 'Z') || ('0' <= c <= '9')
  }

  /** `str.isalnum()`: non-empty and every character a letter or digit.
      Keys such as the arrows report no text and so never type anything;
      a one-character key types exactly when that character is a letter or
      a digit. */
  predicate IsAlnum(t: string)
    ensures |t| == 0 ==> !IsAlnum(t)
    ensures |t| == 1 ==> (IsAlnum(t) <==> IsAlnumChar(t[0]))
  {
    |t| > 0 && forall i :: 0 <= i < |t| ==> IsAlnumChar(t[i])
  }

  /** Backspace drops the last character (nothing to drop is fine); a
      letter or digit is appended only while the name is shorter than ten. */
  function EditName(name: string, k: NameKey): (r: string)
    ensures k.Backspace? ==> |r| == (if |name| == 0 then 0 else |name| - 1) && r == name[..|r|]
    ensures k.Typed? ==> r == name || (|name| < MaxNameLength && IsAlnum(k.text) && r == name + k.text)
    ensures k.Typed? && |name| < MaxNameLength && IsAlnum(k.text) ==> r == name + k.text
    ensures (k.Backspace? || |k.text| <= 1) && |name| <= MaxNameLength ==> |r| <= MaxNameLength
  {
    match k
    case Backspace => if |name| == 0 then name else name[..|name| - 1]
    case Typed(t) => if |name| < MaxNameLength && IsAlnum(t) then name + t else name
  }

  /** Typing a letter or digit into a short name and then pressing
      Backspace restores the name. */
  lemma BackspaceUndoesTyping(name: string, c: char)
    requires |name| < MaxNameLength && IsAlnumChar(c)
    ensures EditName(EditName(name, Typed([c])), Backspace) == name
  {
    assert (name + [c])[..|name|] == name;
  }

  /** Over any sequence of single-character key presses the name never
      grows past ten characters. */
  function EditAll(name: string, keys: seq<NameKey>): (r: string)
    requires |name| <= MaxNameLength
    requires forall i :: 0 <= i < |keys| ==> keys[i].Backspace? || |keys[i].text| <= 1
    ensures |r| <= MaxNameLength
    decreases |keys|
  {
    if |keys| == 0 then name else EditAll(EditName(name, keys[0]), keys[1..])
  }
}
