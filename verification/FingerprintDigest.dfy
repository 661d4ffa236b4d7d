/** The fingerprint computed as the source computes it: loops that feed a running digest. */
module FingerprintDigest {
  import opened Bytes
  import opened Codes
  import opened Sorting
  import opened ContentFingerprint

  /** A running hash: what has been fed to it so far. */
  class Sha256 {
    var fed: seq<byte>

    constructor ()
      ensures fed == []
    {
      fed := [];
    }

    method Update(bytes: seq<byte>)
      modifies this
      ensures fed == old(fed) + bytes
    {
      fed := fed + bytes;
    }
  }

  /** hash_bytes: the length, then the bytes. */
  method HashBytes(word: Writer, hash: Sha256, bytes: Octets)
    modifies hash
    ensures hash.fed == old(hash.fed) + TextBytes(word, bytes)
  {
    hash.Update(word(|bytes|));
    hash.Update(bytes);
  }

  method HashValue(word: Writer, hash: Sha256, v: Value)
    modifies hash
    ensures hash.fed == old(hash.fed) + ValueBytes(word, v)
  {
    match v {
      case Null => hash.Update([0]);
      case Whole(x) =>
        hash.Update([1]);
        hash.Update(IntegerBytes(word, x));
        Associative(old(hash.fed), [1], IntegerBytes(word, x));
      case Real(bits) =>
        hash.Update([2]);
        hash.Update(word(bits));
        Associative(old(hash.fed), [2], word(bits));
      case Text(text) =>
        hash.Update([3]);
        HashBytes(word, hash, text);
        Associative(old(hash.fed), [3], TextBytes(word, text));
      case Blob(blob) =>
        hash.Update([4]);
        HashBytes(word, hash, blob);
        Associative(old(hash.fed), [4], TextBytes(word, blob));
    }
  }

  method HashRow(word: Writer, h: Hasher, row: Row) returns (d: Digest)
    ensures d == Image<Row, Digest>(RowDigest(word, h), row)
  {
    var hash := new Sha256();
    hash.Update(word(|row|));
    assert hash.fed == Enc<Word>(word, |row|) + All<Value>(ValueCode(word), row, 0);
    for column := 0 to |row|
      invariant hash.fed == Enc<Word>(word, |row|) + All<Value>(ValueCode(word), row, column)
    {
      HashValue(word, hash, row[column]);
      AllStep<Value>(ValueCode(word), Enc<Word>(word, |row|), row, column);
    }
    assert hash.fed == RowBytes(word, row);
    d := Hash(h, hash.fed);
  }

  method HashRows(word: Writer, h: Hasher, rows: Rows) returns (hashes: seq<Digest>)
    ensures hashes == Images<Row, Digest>(RowDigest(word, h), rows, |rows|)
  {
    hashes := [];
    for i := 0 to |rows|
      invariant hashes == Images<Row, Digest>(RowDigest(word, h), rows, i)
    {
      var d := HashRow(word, h, rows[i]);
      hashes := hashes + [d];
    }
  }

  method FeedDigests(digest: Sha256, hashes: seq<Digest>)
    modifies digest
    ensures digest.fed == old(digest.fed) + All<Digest>(DigestCode(), hashes, |hashes|)
  {
    for i := 0 to |hashes|
      invariant digest.fed == old(digest.fed) + All<Digest>(DigestCode(), hashes, i)
    {
      digest.Update(hashes[i]);
      AllStep<Digest>(DigestCode(), old(digest.fed), hashes, i);
    }
  }

  /** The count of a table's rows and the sorted hashes of the rows. */
  method HashTable(word: Writer, h: Hasher, digest: Sha256, e: Entry)
    requires e.kind == TABLE
    modifies digest
    ensures digest.fed == old(digest.fed) + ContentFingerprint.HashBytes(word, ShapeOf(word, h, e))
  {
    var hashes := HashRows(word, h, e.rows);
    SortedDigests(hashes);
    var sorted: seq<Digest> := Sort(hashes);
    assert sorted == ShapeOf(word, h, e).hashes;
    digest.Update(word(|sorted|));
    FeedDigests(digest, sorted);
    Associative(old(digest.fed), Enc<Word>(word, |sorted|), All<Digest>(DigestCode(), sorted, |sorted|));
  }

  method HashEntry(word: Writer, h: Hasher, digest: Sha256, e: Entry)
    modifies digest
    ensures digest.fed == old(digest.fed) + Enc<Shape>(ShapeCode(word), ShapeOf(word, h, e))
  {
    var texts: seq<Octets> := [e.kind, e.name, e.table, SqlText(e)];
    ghost var start := digest.fed;
    assert digest.fed == start + All<Octets>(TextCode(word), texts, 0);
    for i := 0 to 4
      invariant digest.fed == start + All<Octets>(TextCode(word), texts, i)
    {
      HashBytes(word, digest, texts[i]);
      AllStep<Octets>(TextCode(word), start, texts, i);
    }
    if e.kind == TABLE {
      HashTable(word, h, digest, e);
    }
    Associative(start, All<Octets>(TextCode(word), texts, 4), ContentFingerprint.HashBytes(word, ShapeOf(word, h, e)));
  }

  /** The entries' bytes, one after the other. */
  function SchemaBytes(word: Writer, h: Hasher, schema: seq<Entry>, n: nat): seq<byte>
    requires n <= |schema|
  {
    if n == 0 then []
    else SchemaBytes(word, h, schema, n - 1) + Enc<Shape>(ShapeCode(word), ShapeOf(word, h, schema[n - 1]))
  }

  lemma {:induction false} SchemaBytesAll(word: Writer, h: Hasher, schema: seq<Entry>, n: nat)
    requires n <= |schema|
    ensures SchemaBytes(word, h, schema, n) == All<Shape>(ShapeCode(word), Shapes(word, h, schema, |schema|), n)
  {
    if n != 0 {
      SchemaBytesAll(word, h, schema, n - 1);
    }
  }

  method FeedSchema(word: Writer, h: Hasher, digest: Sha256, schema: seq<Entry>)
    modifies digest
    ensures digest.fed == old(digest.fed) + SchemaBytes(word, h, schema, |schema|)
  {
    for i := 0 to |schema|
      invariant digest.fed == old(digest.fed) + SchemaBytes(word, h, schema, i)
    {
      HashEntry(word, h, digest, schema[i]);
      Associative(
        old(digest.fed), SchemaBytes(word, h, schema, i), Enc<Shape>(ShapeCode(word), ShapeOf(word, h, schema[i])));
    }
  }

  method FeedPragmas(word: Writer, digest: Sha256, pragmas: seq<Integer>)
    requires digest.fed == []
    modifies digest
    ensures digest.fed == All<Integer>(IntegerCode(word), pragmas, |pragmas|)
  {
    for i := 0 to |pragmas|
      invariant digest.fed == All<Integer>(IntegerCode(word), pragmas, i)
    {
      digest.Update(IntegerBytes(word, pragmas[i]));
      assert Enc<Integer>(IntegerCode(word), pragmas[i]) == IntegerBytes(word, pragmas[i]);
    }
  }

  method HashDatabase(word: Writer, h: Hasher, db: Database) returns (d: Digest)
    ensures d == Hash(h, Stream(word, h, db))
  {
    var digest := new Sha256();
    FeedPragmas(word, digest, Pragmas(db));
    FeedSchema(word, h, digest, db.schema);
    SchemaBytesAll(word, h, db.schema, |db.schema|);
    d := Hash(h, digest.fed);
  }

  method FingerprintOf(h: Hasher, db: Database) returns (d: Digest)
    ensures d == ContentFingerprint.Fingerprint(h, db)
  {
    d := HashDatabase(WordBytes, h, db);
  }
}
