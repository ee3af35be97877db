/** The snapshot file: a length, a compressed header and compressed documents, written and read back. */
module SnapshotFile {
  import opened Common
  import opened DocumentStore
  import opened Snapshot

  datatype Metadata = Metadata(formatVersion: int, createdAt: real, documentCount: int)

  /** The most a compressed part of the file may expand to. */
  const MAX_OUTPUT_SIZE: nat := 100 * 1024 * 1024

  /** zstd itself, JSON and msgpack, and the length of a string in UTF-8. */
  datatype Codec = Codec(
    compress: Bytes -> Bytes, expand: Bytes -> Option<Bytes>,
    header: Metadata -> Bytes, parseHeader: Bytes -> Option<Metadata>,
    pack: seq<Exported> -> Bytes, unpack: Bytes -> Option<seq<Exported>>,
    size: string -> nat
  )

  ghost predicate Lossless(codec: Codec) {
    && (forall b: Bytes :: codec.expand(codec.compress(b)) == Some(b))
    && (forall m: Metadata :: codec.parseHeader(codec.header(m)) == Some(m))
    && (forall ds: seq<Exported> :: codec.unpack(codec.pack(ds)) == Some(ds))
  }

  /** Compressor.decompress, which raises when the result is too long. */
  function Decompress(codec: Codec, bs: Bytes): Option<Bytes> {
    var result := codec.expand(bs);
    if result.Some? && |result.value| > MAX_OUTPUT_SIZE then None else result
  }

  datatype Error =
    | StructError
    | FileTooLarge
    | FileTooSmall
    | HeaderTooLarge
    | Undecodable
    | NewerVersion
    | TooManyDocuments

  datatype Result<+T> = Ok(value: T) | Err(error: Error)

  /** struct.pack(">I", n), for n below 2^32. */
  function Pack32(n: nat): (bs: Bytes)
    requires n < 0x1_0000_0000
    ensures |bs| == 4
  {
    [n / 0x100_0000, n / 0x1_0000 % 0x100, n / 0x100 % 0x100, n % 0x100]
  }

  function Unpack32(bs: Bytes): (n: nat)
    requires |bs| == 4
  {
    var b0: int, b1: int, b2: int, b3: int := bs[0], bs[1], bs[2], bs[3];
    0x100_0000 * b0 + 0x1_0000 * b1 + 0x100 * b2 + b3
  }

  lemma Pack32RoundTrip(n: nat)
    requires n < 0x1_0000_0000
    ensures Unpack32(Pack32(n)) == n
  {
    assert n / 0x100 / 0x100 == n / 0x1_0000;
    assert n / 0x1_0000 / 0x100 == n / 0x100_0000;
  }

  function PlainHeader(codec: Codec, count: nat, now: real): Bytes {
    codec.header(Metadata(FORMAT_VERSION, now, count))
  }

  function HeaderBytes(codec: Codec, count: nat, now: real): Bytes {
    codec.compress(PlainHeader(codec, count, now))
  }

  /** export_snapshot, up to writing the file. */
  function Write(codec: Codec, docs: seq<Exported>, now: real): Result<Bytes> {
    var header := HeaderBytes(codec, |docs|, now);
    if |header| >= 0x1_0000_0000 then Err(StructError)
    else Ok(Pack32(|header|) + header + codec.compress(codec.pack(docs)))
  }

  /** The limits the unpacker is given: no longer list, no longer string. */
  predicate WithinUnpackLimits(codec: Codec, docs: seq<Exported>) {
    && |docs| <= MAX_ARRAY_LEN
    && forall e | e in docs ::
         && codec.size(e.url) <= MAX_STR_LEN && codec.size(e.title) <= MAX_STR_LEN && codec.size(e.text) <= MAX_STR_LEN
         && codec.size(e.rawHtmlHash) <= MAX_STR_LEN && codec.size(e.textHash) <= MAX_STR_LEN
         && (e.language.Some? ==> codec.size(e.language.value) <= MAX_STR_LEN)
  }

  function Unpack(codec: Codec, bs: Bytes): Option<seq<Exported>> {
    var docs := codec.unpack(bs);
    if docs.Some? && WithinUnpackLimits(codec, docs.value) then docs else None
  }

  function ReadDocuments(codec: Codec, headerBytes: Bytes, docBytes: Bytes): Result<seq<Exported>> {
    var plain := Decompress(codec, headerBytes);
    if plain.None? then Err(Undecodable)
    else
      var metadata := codec.parseHeader(plain.value);
      if metadata.None? then Err(Undecodable)
      else if metadata.value.formatVersion > FORMAT_VERSION then Err(NewerVersion)
      else if metadata.value.documentCount > MAX_SNAPSHOT_DOCUMENTS then Err(TooManyDocuments)
      else
        var packed := Decompress(codec, docBytes);
        if packed.None? then Err(Undecodable)
        else
          var docs := Unpack(codec, packed.value);
          if docs.None? then Err(Undecodable)
          else if |docs.value| > MAX_SNAPSHOT_DOCUMENTS then Err(TooManyDocuments)
          else Ok(docs.value)
  }

  /** import_snapshot, up to the loop that adds the documents. */
  function Read(codec: Codec, file: Bytes): Result<seq<Exported>> {
    if |file| > MAX_SNAPSHOT_FILE_BYTES then Err(FileTooLarge)
    else if |file| < 4 then Err(FileTooSmall)
    else
      var headerLen := Unpack32(file[..4]);
      if headerLen > MAX_HEADER_LEN then Err(HeaderTooLarge)
      else
        var rest := file[4..];
        var n := if headerLen < |rest| then headerLen else |rest|;
        ReadDocuments(codec, rest[..n], rest[n..])
  }

  lemma ReadWritten(codec: Codec, docs: seq<Exported>, now: real, file: Bytes)
    requires Lossless(codec) && Write(codec, docs, now) == Ok(file)
    requires |file| <= MAX_SNAPSHOT_FILE_BYTES && |HeaderBytes(codec, |docs|, now)| <= MAX_HEADER_LEN
    ensures Read(codec, file) == ReadDocuments(codec, HeaderBytes(codec, |docs|, now), codec.compress(codec.pack(docs)))
  {
    var header, body := HeaderBytes(codec, |docs|, now), codec.compress(codec.pack(docs));
    Pack32RoundTrip(|header|);
    assert file[..4] == Pack32(|header|);
    assert file[4..] == header + body;
    assert (header + body)[..|header|] == header && (header + body)[|header|..] == body;
  }

  lemma WrittenHeader(codec: Codec, docs: seq<Exported>, now: real, file: Bytes)
    requires Write(codec, docs, now) == Ok(file) && |file| <= MAX_SNAPSHOT_FILE_BYTES
    requires |HeaderBytes(codec, |docs|, now)| > MAX_HEADER_LEN
    ensures Read(codec, file) == Err(HeaderTooLarge)
  {
    Pack32RoundTrip(|HeaderBytes(codec, |docs|, now)|);
    assert file[..4] == Pack32(|HeaderBytes(codec, |docs|, now)|);
  }

  /** What a file written for these documents must satisfy to be read back. */
  predicate WithinLimits(codec: Codec, docs: seq<Exported>, now: real, file: Bytes) {
    && |file| <= MAX_SNAPSHOT_FILE_BYTES
    && |HeaderBytes(codec, |docs|, now)| <= MAX_HEADER_LEN
    && |PlainHeader(codec, |docs|, now)| <= MAX_OUTPUT_SIZE
    && |codec.pack(docs)| <= MAX_OUTPUT_SIZE
    && WithinUnpackLimits(codec, docs)
  }

  /** A written snapshot can be read back exactly if the file is at most 1 GiB and its header 10 MiB, both parts expand
      to at most 100 MiB, and the documents are within the unpacker's limits: at most 65536, though the import itself
      would take 100000, with no string above 1 MiB. */
  lemma ReadableIff(codec: Codec, docs: seq<Exported>, now: real, file: Bytes)
    requires Lossless(codec) && Write(codec, docs, now) == Ok(file)
    ensures Read(codec, file).Ok? <==>
            && |file| <= 1_073_741_824
            && |HeaderBytes(codec, |docs|, now)| <= 10_485_760
            && |PlainHeader(codec, |docs|, now)| <= 104_857_600
            && |codec.pack(docs)| <= 104_857_600
            && |docs| <= 65_536
            && (forall e | e in docs ::
                  && codec.size(e.url) <= 1_048_576 && codec.size(e.title) <= 1_048_576
                  && codec.size(e.text) <= 1_048_576 && codec.size(e.rawHtmlHash) <= 1_048_576
                  && codec.size(e.textHash) <= 1_048_576
                  && (e.language.Some? ==> codec.size(e.language.value) <= 1_048_576))
    ensures Read(codec, file).Ok? <==> WithinLimits(codec, docs, now, file)
    ensures Read(codec, file).Ok? ==> Read(codec, file) == Ok(docs)
  {
    if |file| <= MAX_SNAPSHOT_FILE_BYTES {
      if |HeaderBytes(codec, |docs|, now)| <= MAX_HEADER_LEN {
        ReadWritten(codec, docs, now, file);
      } else {
        WrittenHeader(codec, docs, now, file);
      }
    }
  }

  /** Of any file, written or not: a newer format and more than 100000 documents announced are errors. */
  lemma ReadRefuses(codec: Codec, file: Bytes, plain: Bytes, m: Metadata)
    requires 4 <= |file| <= 1_073_741_824 && Unpack32(file[..4]) <= 10_485_760
    requires var rest := file[4..];
             var n := if Unpack32(file[..4]) < |rest| then Unpack32(file[..4]) else |rest|;
             codec.expand(rest[..n]) == Some(plain) && |plain| <= 104_857_600 && codec.parseHeader(plain) == Some(m)
    ensures Read(codec, file) == Err(NewerVersion) <==> m.formatVersion > 1
    ensures Read(codec, file) == Err(TooManyDocuments) <==> m.formatVersion <= 1 && m.documentCount > 100_000
    ensures Read(codec, file).Ok? ==> m.formatVersion <= 1 && m.documentCount <= 100_000
  {
  }

  /** And so are a file that is too large, one without a length, and one whose header is announced too large. */
  lemma ReadRefusesSizes(codec: Codec, file: Bytes)
    ensures Read(codec, file) == Err(FileTooLarge) <==> |file| > 1_073_741_824
    ensures Read(codec, file) == Err(FileTooSmall) <==> |file| < 4
    ensures Read(codec, file) == Err(HeaderTooLarge)
       <==> 4 <= |file| <= 1_073_741_824 && Unpack32(file[..4]) > 10_485_760
  {
  }

  lemma ExportedKeys(docs: seq<Doc>)
    requires UniqueUrls(docs) && UniqueHashes(docs)
    ensures DistinctKeys(ExportDocuments(docs))
  {
  }

  /** The i-th row is the i-th one of the other store in every column that a snapshot carries. */
  predicate AreCopies(rows: seq<Doc>, docs: seq<Doc>, w: Writer) {
    |rows| == |docs| && forall i | 0 <= i < |rows| :: IsCopy(rows[i], docs[i], w, i)
  }

  predicate IsCopy(row: Doc, d: Doc, w: Writer, i: nat) {
    row == d.(id := i + 1, crawledAt := w.clock(i), jsRequired := false, recrawl := map[],
              compressed := if w.codec.Some? then Some(w.codec.value.pack(d.text)) else None)
  }

  lemma CopiesOfExported(rows: seq<Doc>, docs: seq<Doc>, w: Writer)
    requires AreImported(rows, ExportDocuments(docs), w)
    ensures AreCopies(rows, docs, w)
  {
    forall i | 0 <= i < |rows| ensures IsCopy(rows[i], docs[i], w, i) {
      assert IsImported(rows[i], ExportDocuments(docs)[i], w, i);
    }
  }

  /** Within the limits, a snapshot of any reachable store, imported into an empty one, gives every document
      back, in order and none skipped; importing it again adds none. */
  lemma ExportImport(codec: Codec, tok: Tokenizer, steps: seq<Step>, now: real, file: Bytes, w: Writer,
                     w': Writer)
    requires Lossless(codec)
    requires var docs := ExportDocuments(Outcome(tok, EMPTY, steps).docs);
             Write(codec, docs, now) == Ok(file) && WithinLimits(codec, docs, now, file)
    ensures var docs := ExportDocuments(Outcome(tok, EMPTY, steps).docs);
            && Read(codec, file) == Ok(docs)
            && var m := Import(tok, EMPTY, docs, w);
               && m.imported == |docs| && m.skipped == 0
               && AreCopies(m.store.docs, Outcome(tok, EMPTY, steps).docs, w)
               && Import(tok, m.store, docs, w') == Merged(m.store, 0, |docs|)
  {
    var s := Outcome(tok, EMPTY, steps);
    var docs := ExportDocuments(s.docs);
    ConsistentAlways(tok, steps);
    ReadableIff(codec, docs, now, file);
    ExportedKeys(s.docs);
    ImportIntoEmpty(tok, docs, w);
    CopiesOfExported(Import(tok, EMPTY, docs, w).store.docs, s.docs, w);
    ImportTwice(tok, EMPTY, docs, w, w');
  }
}
