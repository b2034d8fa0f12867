/**
 * The two file forms: the stream form with its magic and version header,
 * which writeToStream / readFromStream use, and the headerless form of the
 * Path-based writeChunk / readChunk pair. Each reader undoes its own writer,
 * and neither accepts what the other writes, except by coincidence.
 */
module DogcFiles {
  import opened Wrappers
  import opened JavaLang
  import opened Bytecode
  import opened Bytes
  import opened DogcFormat
  import opened DogcFits
  import opened DogcNormal
  import opened DogcReads
  import opened DogcFieldRoundTrip
  import opened DogcRoundTrip

  /** readFromStream undoes writeToStream. */
  lemma {:induction false} StreamRoundTrip(c: ChunkData)
    requires Fits(c)
    ensures ReadStream(StreamBytes(c)) == Ok(NormalizedChunk(c))
  {
    ReadChunkBytes(c, []);
    StreamFromChunk(c);
  }

  /** The header reads back, and what follows it is the chunk. */
  lemma {:induction false} StreamFromChunk(c: ChunkData)
    requires ChunkComesBack(c, [])
    ensures ReadStream(StreamBytes(c)) == Ok(NormalizedChunk(c))
  {
    var data := StreamBytes(c);
    var t := IntField(VERSION) + ChunkBytes(c);
    assert data == MAGIC + t;
    assert data[..4] == MAGIC && data[4..] == t;
    ReadIntField(VERSION, ChunkBytes(c));
    assert ChunkBytes(c) + [] == ChunkBytes(c);
  }

  /** The Path-based readChunk undoes the Path-based writeChunk. */
  lemma {:induction false} HeaderlessRoundTrip(c: ChunkData)
    requires Fits(c)
    ensures ReadHeaderless(ChunkBytes(c)) == Ok(NormalizedChunk(c))
  {
    ReadChunkBytes(c, []);
    assert ChunkBytes(c) + [] == ChunkBytes(c);
  }

  lemma {:induction false} MagicAsInt()
    ensures IntOfBytes(MAGIC) == 0x444F_4743
  {
    assert MAGIC[..3][..2][..1] == [0x44];
    assert MAGIC[..3][..2] == [0x44, 0x4F];
    assert MAGIC[..3] == [0x44, 0x4F, 0x47];
    assert FromBigEndian([0x44]) == 0x44;
    assert FromBigEndian([0x44, 0x4F]) == 0x444F;
    assert FromBigEndian([0x44, 0x4F, 0x47]) == 0x44_4F47;
  }

  /** The stream reader accepts a headerless file only when its function count happens to
      spell the magic bytes. */
  lemma {:induction false} HeaderlessRejectedByStreamReader(c: ChunkData)
    requires Fits(c)
    ensures ReadStream(ChunkBytes(c)).Ok? ==> |c.functions| == 0x444F_4743
  {
    var data := ChunkBytes(c);
    if ReadStream(data).Ok? {
      assert data[..4] == IntField(|c.functions|);
      MagicAsInt();
      IntRoundTrip(|c.functions|);
    }
  }

  /** The headerless reader takes the magic bytes for a function count of 0x444F4743 and
      fails unless the file is long enough to hold that many functions. */
  lemma {:induction false} StreamRejectedByHeaderlessReader(c: ChunkData)
    ensures ReadHeaderless(StreamBytes(c)).Ok? ==> |StreamBytes(c)| >= 4 + 12 * 0x444F_4743
  {
    var data := StreamBytes(c);
    assert data[0..4] == MAGIC;
    MagicAsInt();
  }
}
