/**
  `containsSequence` and `validateDocumentStructure`: the end marker of a PDF and the end
  of central directory record of a ZIP archive, searched for from the end of the file.
*/
module DocumentStructure {

  type Byte = x: int | 0 <= x < 256

  const PDF_WINDOW := 1024
  const ZIP_WINDOW := 65557
  const PDF_END: seq<Byte> := [0x25, 0x25, 0x45, 0x4f, 0x46]
  const ZIP_END: seq<Byte> := [0x50, 0x4b, 0x05, 0x06]

  predicate OccursAt(bytes: seq<Byte>, sequence: seq<Byte>, offset: int) {
    0 <= offset <= |bytes| - |sequence| && bytes[offset..offset + |sequence|] == sequence
  }

  method ContainsSequence(bytes: seq<Byte>, sequence: seq<Byte>, minimumOffset: nat) returns (found: bool)
    ensures found <==> exists offset :: minimumOffset <= offset && OccursAt(bytes, sequence, offset)
  {
    var offset := |bytes| - |sequence|;
    while offset >= minimumOffset
      invariant offset <= |bytes| - |sequence|
      invariant forall later :: offset < later ==> !OccursAt(bytes, sequence, later)
    {
      if bytes[offset..offset + |sequence|] == sequence {
        assert OccursAt(bytes, sequence, offset);
        return true;
      }
      offset := offset - 1;
    }
    return false;
  }

  datatype DocumentType = PDF | ZIP | OTHER

  datatype Verdict = VALID | PDF_STRUCTURE_INVALID | ZIP_STRUCTURE_INVALID

  function ReadLittleEndian16(bytes: seq<Byte>, offset: nat): int
    requires offset + 1 < |bytes|
  {
    (bytes[offset] as int) + (bytes[offset + 1] as int) * 256
  }

  /** An end record whose comment reaches exactly to the end of the file. */
  predicate EndRecordAt(bytes: seq<Byte>, offset: int) {
    && 0 <= offset <= |bytes| - 22
    && OccursAt(bytes, [0x50, 0x4b, 0x05, 0x06], offset)
    && offset + 22 + bytes[offset + 20] as int + 256 * bytes[offset + 21] as int == |bytes|
  }

  ghost predicate Complete(bytes: seq<Byte>, kind: DocumentType) {
    match kind
    case PDF => exists offset :: |bytes| - 1024 <= offset && OccursAt(bytes, [0x25, 0x25, 0x45, 0x4f, 0x46], offset)
    case ZIP => exists offset :: EndRecordAt(bytes, offset)
    case OTHER => true
  }

  /**
    The search looks at the last 65557 bytes only; that it nevertheless finds a record
    wherever there is one follows from the 16 bits of the comment length.
  */
  method ValidateDocumentStructure(bytes: seq<Byte>, kind: DocumentType) returns (v: Verdict)
    ensures v == VALID <==> Complete(bytes, kind)
    ensures v == PDF_STRUCTURE_INVALID ==> kind == PDF
    ensures v == ZIP_STRUCTURE_INVALID ==> kind == ZIP
  {
    if kind == PDF {
      var searchStart := if |bytes| > PDF_WINDOW then |bytes| - PDF_WINDOW else 0;
      var found := ContainsSequence(bytes, PDF_END, searchStart);
      return if found then VALID else PDF_STRUCTURE_INVALID;
    }
    if kind != ZIP {
      return VALID;
    }
    var minimumOffset := if |bytes| > ZIP_WINDOW then |bytes| - ZIP_WINDOW else 0;
    var offset := |bytes| - 22;
    while offset >= minimumOffset
      invariant offset <= |bytes| - 22
      invariant forall later :: offset < later ==> !EndRecordAt(bytes, later)
    {
      if bytes[offset..offset + 4] == ZIP_END {
        var commentLength := ReadLittleEndian16(bytes, offset + 20);
        if offset + 22 + commentLength == |bytes| {
          assert EndRecordAt(bytes, offset);
          return VALID;
        }
      }
      offset := offset - 1;
    }
    return ZIP_STRUCTURE_INVALID;
  }

  // --- The archives that are accepted ---

  /** Entries, then the end record: signature, sixteen bytes of counts, comment length, comment. */
  function Archive(entries: seq<Byte>, counts: seq<Byte>, comment: seq<Byte>): seq<Byte>
    requires |comment| < 0x1_0000
  {
    entries + [0x50, 0x4b, 0x05, 0x06] + counts + [|comment| % 256, |comment| / 256] + comment
  }

  ghost predicate IsArchive(bytes: seq<Byte>) {
    exists entries, counts, comment ::
      |counts| == 16 && |comment| < 0x1_0000 && bytes == Archive(entries, counts, comment)
  }

  lemma ArchiveHasRecord(entries: seq<Byte>, counts: seq<Byte>, comment: seq<Byte>)
    requires |counts| == 16 && |comment| < 0x1_0000
    ensures EndRecordAt(Archive(entries, counts, comment), |entries|)
  {
    var bytes := Archive(entries, counts, comment);
    assert bytes[|entries|..|entries| + 4] == ZIP_END;
    assert bytes[|entries| + 20] == |comment| % 256 && bytes[|entries| + 21] == |comment| / 256;
  }

  lemma RecordSplitsArchive(bytes: seq<Byte>, offset: int)
    requires EndRecordAt(bytes, offset)
    ensures IsArchive(bytes)
  {
    var entries, counts, comment := bytes[..offset], bytes[offset + 4..offset + 20], bytes[offset + 22..];
    assert |comment| == bytes[offset + 20] as int + 256 * bytes[offset + 21] as int;
    assert bytes[offset..offset + 4] == ZIP_END;
    assert bytes == Archive(entries, counts, comment);
  }

  /** A ZIP document is accepted exactly when it is entries followed by a whole end record. */
  lemma ZipAcceptsArchives(bytes: seq<Byte>)
    ensures Complete(bytes, ZIP) <==> IsArchive(bytes)
  {
    if Complete(bytes, ZIP) {
      var offset :| EndRecordAt(bytes, offset);
      RecordSplitsArchive(bytes, offset);
    }
    if IsArchive(bytes) {
      var entries, counts, comment :|
        |counts| == 16 && |comment| < 0x1_0000 && bytes == Archive(entries, counts, comment);
      ArchiveHasRecord(entries, counts, comment);
    }
  }
}
