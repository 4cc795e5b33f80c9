/** Applying an insertion to the original text, as the editor does with
    the edit the assist produces. */
module TextEdit {

  /** One insertion: `text` placed at `offset` of the original text. */
  datatype Insertion = Insertion(offset: nat, text: string)

  /** `text` with `s` inserted at `off`: everything before `off` and
      everything from `off` on is kept, and `s` sits between them. */
  function ApplyInsert(text: string, off: nat, s: string): (r: string)
    requires off <= |text|
    ensures |r| == |text| + |s|
    ensures r[..off] == text[..off]
    ensures r[off..off + |s|] == s
    ensures r[off + |s|..] == text[off..]
  {
    text[..off] + s + text[off..]
  }

  /** `text` with the `n` characters from `off` removed. */
  function RemoveSpan(text: string, off: nat, n: nat): (r: string)
    requires off + n <= |text|
    ensures |r| == |text| - n
    ensures r[..off] == text[..off]
    ensures r[off..] == text[off + n..]
  {
    text[..off] + text[off + n..]
  }

  /** Removing what was inserted gives back the original text, so an
      insertion changes nothing but the span it adds. */
  lemma InsertThenRemove(text: string, off: nat, s: string)
    requires off <= |text|
    ensures RemoveSpan(ApplyInsert(text, off, s), off, |s|) == text
  {
  }

  /** A text that agrees with `text` before `off`, holds `s` next and then
      the rest of `text` is exactly `ApplyInsert(text, off, s)`. */
  lemma InsertIsDeterminedByItsParts(text: string, off: nat, s: string, r: string)
    requires off <= |text|
    requires |r| == |text| + |s|
    requires r[..off] == text[..off]
    requires r[off..off + |s|] == s
    requires r[off + |s|..] == text[off..]
    ensures r == ApplyInsert(text, off, s)
  {
  }
}
