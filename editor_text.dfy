/**
 * The document edits the streaming action makes: the newline padding added before
 * a session, insertion at an offset, and the guarded deletion that removes the
 * padding again when nothing was written.
 */
module EditorText {

  /** The number of `'\n'` characters `text` ends with. */
  function TrailingNewlines(text: string): (k: nat)
    ensures k <= |text|
    ensures forall i :: |text| - k <= i < |text| ==> text[i] == '\n'
    ensures k < |text| ==> text[|text| - 1 - k] != '\n'
  {
    if text == [] || text[|text| - 1] != '\n' then 0 else 1 + TrailingNewlines(text[..|text| - 1])
  }

  /** The count of trailing newlines is the only count with both properties above. */
  lemma {:induction false} TrailingNewlinesUnique(text: string, k: nat)
    requires k <= |text|
    requires forall i :: |text| - k <= i < |text| ==> text[i] == '\n'
    requires k < |text| ==> text[|text| - 1 - k] != '\n'
    ensures k == TrailingNewlines(text)
    decreases |text|
  {
    if k > 0 {
      var t := text[..|text| - 1];
      assert forall i :: |t| - (k - 1) <= i < |t| ==> t[i] == text[i];
      TrailingNewlinesUnique(t, k - 1);
    }
  }

  /** `"\n".repeat(n)` */
  function Newlines(n: nat): (r: string)
    ensures |r| == n && forall i :: 0 <= i < n ==> r[i] == '\n'
  {
    seq(n, _ => '\n')
  }

  /** The newlines `calculateStartOffset` appends: enough for four at the end. */
  function Padding(text: string): string
  {
    var k := TrailingNewlines(text);
    if k < 4 then Newlines(4 - k) else []
  }

  /** After padding the text ends with exactly max(k, 4) newlines, where k is the count it ended with. */
  lemma {:induction false} PaddedTrailingNewlines(text: string)
    ensures var k := TrailingNewlines(text);
      TrailingNewlines(text + Padding(text)) == if k < 4 then 4 else k
  {
    var k := TrailingNewlines(text);
    if k < 4 {
      var pad := Newlines(4 - k);
      var padded := text + pad;
      forall i | |padded| - 4 <= i < |padded| ensures padded[i] == '\n' {
        if i < |text| {
          assert padded[i] == text[i];
        } else {
          assert padded[i] == pad[i - |text|];
        }
      }
      if 4 < |padded| {
        assert padded[|padded| - 1 - 4] == text[|text| - 1 - k];
      }
      TrailingNewlinesUnique(padded, 4);
    } else {
      assert text + Padding(text) == text;
    }
  }

  /**
   * Padding adds at most four newlines, adds nothing to a text that already ends
   * with four, leaves the text ending in four newlines, and padding twice adds
   * nothing more.
   */
  lemma PaddingEndsWithFour(text: string)
    ensures var padded := text + Padding(text);
      var k := TrailingNewlines(text);
      && |Padding(text)| <= 4
      && (Padding(text) == [] <==> k >= 4)
      && |padded| >= 4
      && padded[|padded| - 4..] == "\n\n\n\n"
      && Padding(padded) == []
  {
    PaddedTrailingNewlines(text);
    var padded := text + Padding(text);
    var tail := padded[|padded| - 4..];
    forall i | 0 <= i < 4 ensures tail[i] == '\n' {
      assert tail[i] == padded[|padded| - 4 + i];
    }
    assert tail == "\n\n\n\n";
  }

  /** `document.insertString(offset, s)` */
  function Inserted(doc: string, offset: nat, s: string): (r: string)
    requires offset <= |doc|
    ensures |r| == |doc| + |s|
  {
    doc[..offset] + s + doc[offset..]
  }

  /** After an insertion the text before the offset, the inserted text and the rest follow each other. */
  lemma InsertedParts(doc: string, offset: nat, s: string)
    requires offset <= |doc|
    ensures var r := Inserted(doc, offset, s);
      r[..offset] == doc[..offset] && r[offset..offset + |s|] == s && r[offset + |s|..] == doc[offset..]
  {
    var r := Inserted(doc, offset, s);
    assert r == doc[..offset] + s + doc[offset..];
  }

  /** Inserting `a` and then `b` just after it inserts `a + b`. */
  lemma InsertedTwice(doc: string, offset: nat, a: string, b: string)
    requires offset <= |doc|
    ensures Inserted(Inserted(doc, offset, a), offset + |a|, b) == Inserted(doc, offset, a + b)
  {
    var d1 := Inserted(doc, offset, a);
    assert d1[..offset + |a|] == doc[..offset] + a;
  }

  /**
   * `cleanupNewlines(initialOffset, currentOffset)`: nothing when the start is past
   * the end, otherwise delete from the start up to the clamped end, if that is
   * further on. A negative start makes `deleteString` throw, which is swallowed.
   */
  function CleanedUp(doc: string, init: int, cur: int): (r: string)
    ensures init < 0 || init >= |doc| || cur <= init ==> r == doc
    ensures 0 <= init < cur && init < |doc| ==>
      r == doc[..init] + doc[if cur < |doc| then cur else |doc|..]
  {
    if init >= |doc| then doc
    else
      var safeEnd := if cur < |doc| then cur else |doc|;
      if safeEnd > init && init >= 0 then doc[..init] + doc[safeEnd..] else doc
  }

  /** Cleaning up to the end of the document keeps exactly the text before the start. */
  lemma CleanedUpToEnd(doc: string, init: nat)
    requires init <= |doc|
    ensures CleanedUp(doc, init, |doc|) == doc[..init]
  {
  }

  /**
   * A session that writes nothing deletes from the start offset to the end: what
   * stays is the padded text without its last two newlines.
   */
  lemma {:induction false} PaddingRemoved(text: string)
    ensures var padded := text + Padding(text);
      var k := TrailingNewlines(text);
      && CleanedUp(padded, |padded| - 2, |padded|) == padded[..|padded| - 2]
      && TrailingNewlines(padded[..|padded| - 2]) == (if k < 4 then 4 else k) - 2
  {
    PaddedTrailingNewlines(text);
    var padded := text + Padding(text);
    var n := TrailingNewlines(padded);
    var r := padded[..|padded| - 2];
    forall i | |r| - (n - 2) <= i < |r| ensures r[i] == '\n' {
      assert r[i] == padded[i];
    }
    if n - 2 < |r| {
      assert r[|r| - 1 - (n - 2)] == padded[|padded| - 1 - n];
    }
    TrailingNewlinesUnique(r, n - 2);
  }
}
