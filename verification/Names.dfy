/** File names of the active-slot store. */
module Names {

  datatype Name =
    | Canonical(mapping: string)
    | Temporary(invocation: string)
    | Foreign(text: string)

  const PREFIX := "sha256:"
  const JSON := ".json"
  const TMP := ".tmp"

  predicate IsHex(text: string) {
    forall i :: 0 <= i < |text| ==> '0' <= text[i] <= '9' || 'a' <= text[i] <= 'f'
  }

  predicate IsSha256(value: string) {
    |value| == 71 && value[..7] == PREFIX && IsHex(value[7..])
  }

  predicate IsLabelChar(c: char) {
    'a' <= c <= 'z' || 'A' <= c <= 'Z' || '0' <= c <= '9' || c == '-' || c == '_' || c == '.'
  }

  predicate IsLabel(value: string) {
    0 < |value| <= 128 && forall i :: 0 <= i < |value| ==> IsLabelChar(value[i])
  }

  predicate EndsWith(text: string, suffix: string) {
    |text| >= |suffix| && text[|text| - |suffix|..] == suffix
  }

  predicate WellNamed(n: Name) {
    match n
    case Canonical(mapping) => IsSha256(mapping)
    case Temporary(invocation) => IsLabel(invocation)
    case Foreign(_) => false
  }

  /** `slot_path` and the temporary name of `replace_atomically`. */
  function Render(n: Name): string {
    match n
    case Canonical(mapping) => (if |mapping| >= 7 then mapping[7..] else []) + JSON
    case Temporary(invocation) => ['.'] + invocation + TMP
    case Foreign(text) => text
  }

  /** How recovery reads a file name. */
  function Classify(text: string): (n: Name)
    ensures Render(n) == text
    ensures n.Foreign? || WellNamed(n)
  {
    if |text| > 0 && text[0] == '.' && EndsWith(text, TMP) then
      if |text| >= 5 && IsLabel(text[1..|text| - 4]) then
        assert text == ['.'] + text[1..|text| - 4] + TMP;
        Temporary(text[1..|text| - 4])
      else
        Foreign(text)
    else if |text| == 69 && EndsWith(text, JSON) && IsHex(text[..64]) then
      var mapping := PREFIX + text[..64];
      assert mapping[..7] == PREFIX && mapping[7..] == text[..64];
      assert text == text[..64] + JSON;
      Canonical(mapping)
    else
      Foreign(text)
  }

  lemma ClassifyInvertsRender(n: Name)
    requires WellNamed(n)
    ensures Classify(Render(n)) == n
  {
    var text := Render(n);
    match n
    case Canonical(mapping) =>
      assert text[..64] == mapping[7..];
      assert text[0] == mapping[7];
      assert mapping == mapping[..7] + mapping[7..];
    case Temporary(invocation) =>
      assert text[1..|text| - 4] == invocation;
      assert text[|text| - 4..] == TMP;
  }

  /** Two slots never share a file, and no journal is taken for a temporary. */
  lemma NamesAreDistinct(a: Name, b: Name)
    requires WellNamed(a) && WellNamed(b)
    ensures Render(a) == Render(b) <==> a == b
  {
    ClassifyInvertsRender(a);
    ClassifyInvertsRender(b);
  }

  /** The names themselves: the digest without its prefix, and the hidden temporary of an invocation. */
  lemma FileNames(hex: string, invocation: string)
    ensures Render(Canonical("sha256:" + hex)) == hex + ".json"
    ensures Render(Temporary(invocation)) == "." + invocation + ".tmp"
  {
    assert ("sha256:" + hex)[7..] == hex;
  }
}
