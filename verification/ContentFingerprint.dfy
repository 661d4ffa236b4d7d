/** The fingerprint two databases are compared by (desktop/src-tauri/src/db/encrypted.rs): which databases it tells
    apart.  The hash is a parameter; what is asked of it is only that no two of the strings hashed collide.  How an
    eight-byte word is written is a parameter too, until WordBytes fills it in. */
module ContentFingerprint {
  import opened Wrappers
  import opened Bytes
  import opened Codes
  import opened Sorting

  const SIGN_LIMIT: int := 0x8000_0000_0000_0000

  type Word = x: int | 0 <= x < U64_LIMIT
  type Integer = x: int | -SIGN_LIMIT <= x < SIGN_LIMIT

  /** A byte string whose length fits the eight bytes that announce it. */
  type Octets = b: seq<byte> | |b| < U64_LIMIT

  /** A cell as the SQL engine returns it; a real is its bit pattern. */
  datatype Value = Null | Whole(integer: Integer) | Real(bits: Word) | Text(text: Octets) | Blob(blob: Octets)

  /** One row of a table, its row id first where the table has one. */
  type Row = r: seq<Value> | |r| < U64_LIMIT
  type Rows = r: seq<Row> | |r| < U64_LIMIT

  /** One line of the schema; only a table has rows to read, in whatever order the engine yields them. */
  datatype Entry = Entry(kind: Octets, name: Octets, table: Octets, sql: Option<Octets>, rows: Rows)

  datatype Database = Database(userVersion: Integer, applicationId: Integer, autoVacuum: Integer, schema: seq<Entry>)

  type Digest = d: seq<byte> | |d| == 32 witness seq(32, _ => 0)
  type Hasher = seq<byte> -> Digest
  type Writer = Word -> seq<byte>

  function Hash(h: Hasher, input: seq<byte>): Digest {
    h(input)
  }

  /** The byte string "table". */
  const TABLE: Octets := [116, 97, 98, 108, 101]

  // ----- The stream fed to the digest -----

  function WordBytes(n: Word): (b: seq<byte>)
    ensures |b| == 8
  {
    WordSizes();
    LittleEndian(n, 8)
  }

  /** A signed integer in two's complement. */
  function IntegerBytes(word: Writer, x: Integer): seq<byte> {
    Enc<Word>(word, if x < 0 then x + U64_LIMIT else x)
  }

  /** A byte string under its length. */
  function TextBytes(word: Writer, b: Octets): seq<byte> {
    Enc<Word>(word, |b|) + b
  }

  function ValueBytes(word: Writer, v: Value): seq<byte> {
    match v
    case Null => [0]
    case Whole(x) => [1] + IntegerBytes(word, x)
    case Real(bits) => [2] + Enc<Word>(word, bits)
    case Text(text) => [3] + TextBytes(word, text)
    case Blob(blob) => [4] + TextBytes(word, blob)
  }

  function IntegerCode(word: Writer): Integer -> seq<byte> {
    x => IntegerBytes(word, x)
  }

  function TextCode(word: Writer): Octets -> seq<byte> {
    b => TextBytes(word, b)
  }

  function ValueCode(word: Writer): Value -> seq<byte> {
    v => ValueBytes(word, v)
  }

  function DigestCode(): Digest -> seq<byte> {
    d => d
  }

  function RowBytes(word: Writer, row: Row): seq<byte> {
    Enc<Word>(word, |row|) + All(ValueCode(word), row, |row|)
  }

  function RowDigest(word: Writer, h: Hasher): Row -> Digest {
    row => Hash(h, RowBytes(word, row))
  }

  lemma SortedDigests(hashes: seq<Digest>)
    ensures |Sort(hashes)| == |hashes| && forall i :: 0 <= i < |hashes| ==> |Sort(hashes)[i]| == 32
  {
    var r := Sort(hashes);
    SameSize(r, hashes);
    forall i | 0 <= i < |r|
      ensures |r[i]| == 32
    {
      assert r[i] in multiset(r);
      var k :| 0 <= k < |hashes| && hashes[k] == r[i];
    }
  }

  /** The sorted hashes that stand for a table's rows. */
  function RowDigests(word: Writer, h: Hasher, rows: Rows): (r: seq<Digest>)
    ensures |r| == |rows|
  {
    SortedDigests(Images<Row, Digest>(RowDigest(word, h), rows, |rows|));
    Sort(Images<Row, Digest>(RowDigest(word, h), rows, |rows|))
  }

  function SqlText(e: Entry): Octets {
    if e.sql.Some? then e.sql.value else []
  }

  datatype Outline = Outline(texts: seq<Octets>, hashes: seq<Digest>)

  /** What the digest sees of a schema entry: its four texts, and for a table the sorted hashes of its rows. */
  type Shape = o: Outline | |o.texts| == 4 && |o.hashes| < U64_LIMIT && (o.texts[0] != TABLE ==> o.hashes == [])
    witness Outline([[], [], [], []], [])

  function ShapeOf(word: Writer, h: Hasher, e: Entry): Shape {
    Outline([e.kind, e.name, e.table, SqlText(e)], if e.kind == TABLE then RowDigests(word, h, e.rows) else [])
  }

  function HashBytes(word: Writer, s: Shape): seq<byte> {
    if s.texts[0] == TABLE then Enc<Word>(word, |s.hashes|) + All<Digest>(DigestCode(), s.hashes, |s.hashes|) else []
  }

  function ShapeBytes(word: Writer, s: Shape): seq<byte> {
    All<Octets>(TextCode(word), s.texts, 4) + HashBytes(word, s)
  }

  function ShapeCode(word: Writer): Shape -> seq<byte> {
    s => ShapeBytes(word, s)
  }

  function Shapes(word: Writer, h: Hasher, schema: seq<Entry>, n: nat): (r: seq<Shape>)
    requires n <= |schema|
    ensures |r| == n && forall i :: 0 <= i < n ==> r[i] == ShapeOf(word, h, schema[i])
  {
    if n == 0 then [] else Shapes(word, h, schema, n - 1) + [ShapeOf(word, h, schema[n - 1])]
  }

  function Pragmas(db: Database): seq<Integer> {
    [db.userVersion, db.applicationId, db.autoVacuum]
  }

  function Stream(word: Writer, h: Hasher, db: Database): seq<byte> {
    All<Integer>(IntegerCode(word), Pragmas(db), 3)
    + All<Shape>(ShapeCode(word), Shapes(word, h, db.schema, |db.schema|), |db.schema|)
  }

  function Fingerprint(h: Hasher, db: Database): Digest {
    Hash(h, Stream(WordBytes, h, db))
  }

  // ----- Every part of the stream decodes in only one way -----

  lemma WordsDecode()
    ensures Decodes<Word>(WordBytes) && Nonempty<Word>(WordBytes)
  {
    forall m: Word, n: Word, x, y | Clash<Word>(WordBytes, m, n, x, y)
      ensures m == n && x == y
    {
      Split(WordBytes(m), WordBytes(n), x, y);
      WordSizes();
      LittleEndianInjective(m, n, 8);
    }
  }

  lemma IntegerDecodes(word: Writer, m: Integer, n: Integer, x: seq<byte>, y: seq<byte>)
    requires Decodes<Word>(word) && IntegerBytes(word, m) + x == IntegerBytes(word, n) + y
    ensures m == n && x == y
  {
    assert Clash<Word>(word, if m < 0 then m + U64_LIMIT else m, if n < 0 then n + U64_LIMIT else n, x, y);
  }

  lemma TextDecodes(word: Writer, a: Octets, b: Octets, x: seq<byte>, y: seq<byte>)
    requires Decodes<Word>(word) && TextBytes(word, a) + x == TextBytes(word, b) + y
    ensures a == b && x == y
  {
    Associative(Enc<Word>(word, |a|), a, x);
    Associative(Enc<Word>(word, |b|), b, y);
    assert Clash<Word>(word, |a|, |b|, a + x, b + y);
    Split(a, b, x, y);
  }

  function Body(word: Writer, v: Value): seq<byte> {
    match v
    case Null => []
    case Whole(x) => IntegerBytes(word, x)
    case Real(bits) => Enc<Word>(word, bits)
    case Text(text) => TextBytes(word, text)
    case Blob(blob) => TextBytes(word, blob)
  }

  function Tag(v: Value): byte {
    match v
    case Null => 0
    case Whole(_) => 1
    case Real(_) => 2
    case Text(_) => 3
    case Blob(_) => 4
  }

  lemma BodyDecodes(word: Writer, v: Value, w: Value, x: seq<byte>, y: seq<byte>)
    requires Decodes<Word>(word) && Tag(v) == Tag(w) && Body(word, v) + x == Body(word, w) + y
    ensures v == w && x == y
  {
    match v {
      case Null => assert [] + x == x && [] + y == y;
      case Whole(m) => IntegerDecodes(word, m, w.integer, x, y);
      case Real(m) => assert Clash<Word>(word, m, w.bits, x, y);
      case Text(a) => TextDecodes(word, a, w.text, x, y);
      case Blob(a) => TextDecodes(word, a, w.blob, x, y);
    }
  }

  lemma ValueDecodes(word: Writer, v: Value, w: Value, x: seq<byte>, y: seq<byte>)
    requires Decodes<Word>(word) && ValueBytes(word, v) + x == ValueBytes(word, w) + y
    ensures v == w && x == y
  {
    assert ValueBytes(word, v) == [Tag(v)] + Body(word, v) && ValueBytes(word, w) == [Tag(w)] + Body(word, w);
    Associative([Tag(v)], Body(word, v), x);
    Associative([Tag(w)], Body(word, w), y);
    Split([Tag(v)], [Tag(w)], Body(word, v) + x, Body(word, w) + y);
    assert [Tag(v)][0] == [Tag(w)][0];
    BodyDecodes(word, v, w, x, y);
  }

  lemma PartsDecode(word: Writer)
    requires Decodes<Word>(word)
    ensures Decodes<Integer>(IntegerCode(word)) && Decodes<Octets>(TextCode(word)) && Decodes<Value>(ValueCode(word))
      && Decodes<Digest>(DigestCode())
  {
    forall m: Integer, n: Integer, x, y | Clash<Integer>(IntegerCode(word), m, n, x, y)
      ensures m == n && x == y
    {
      IntegerDecodes(word, m, n, x, y);
    }
    forall a: Octets, b: Octets, x, y | Clash<Octets>(TextCode(word), a, b, x, y)
      ensures a == b && x == y
    {
      TextDecodes(word, a, b, x, y);
    }
    forall v, w, x, y | Clash(ValueCode(word), v, w, x, y)
      ensures v == w && x == y
    {
      ValueDecodes(word, v, w, x, y);
    }
    forall d: Digest, e: Digest, x, y | Clash<Digest>(DigestCode(), d, e, x, y)
      ensures d == e && x == y
    {
      Split(d, e, x, y);
    }
  }

  /** No two rows are hashed as the same string. */
  lemma RowDecodes(word: Writer, r: Row, s: Row)
    requires Decodes<Word>(word) && RowBytes(word, r) == RowBytes(word, s)
    ensures r == s
  {
    var a, b := All(ValueCode(word), r, |r|), All(ValueCode(word), s, |s|);
    assert Clash<Word>(word, |r|, |s|, a, b);
    PartsDecode(word);
    assert a + [] == b + [];
    AllDecodes(ValueCode(word), r, s, |r|, [], []);
    assert r == r[..|r|] && s == s[..|s|];
  }

  lemma HashesDecode(word: Writer, s: Shape, t: Shape, x: seq<byte>, y: seq<byte>)
    requires Decodes<Word>(word) && s.texts == t.texts && HashBytes(word, s) + x == HashBytes(word, t) + y
    ensures s.hashes == t.hashes && x == y
  {
    if s.texts[0] == TABLE {
      var a, b := All<Digest>(DigestCode(), s.hashes, |s.hashes|), All<Digest>(DigestCode(), t.hashes, |t.hashes|);
      Associative(Enc<Word>(word, |s.hashes|), a, x);
      Associative(Enc<Word>(word, |t.hashes|), b, y);
      assert Clash<Word>(word, |s.hashes|, |t.hashes|, a + x, b + y);
      PartsDecode(word);
      AllDecodes<Digest>(DigestCode(), s.hashes, t.hashes, |s.hashes|, x, y);
      assert s.hashes == s.hashes[..|s.hashes|] && t.hashes == t.hashes[..|t.hashes|];
    } else {
      assert [] + x == x && [] + y == y;
    }
  }

  lemma ShapeDecodes(word: Writer, s: Shape, t: Shape, x: seq<byte>, y: seq<byte>)
    requires Decodes<Word>(word) && ShapeBytes(word, s) + x == ShapeBytes(word, t) + y
    ensures s == t && x == y
  {
    Associative(All<Octets>(TextCode(word), s.texts, 4), HashBytes(word, s), x);
    Associative(All<Octets>(TextCode(word), t.texts, 4), HashBytes(word, t), y);
    PartsDecode(word);
    AllDecodes<Octets>(TextCode(word), s.texts, t.texts, 4, HashBytes(word, s) + x, HashBytes(word, t) + y);
    assert s.texts == s.texts[..4] && t.texts == t.texts[..4];
    HashesDecode(word, s, t, x, y);
  }

  lemma ShapesDecode(word: Writer)
    requires Decodes<Word>(word) && Nonempty<Word>(word)
    ensures Decodes<Shape>(ShapeCode(word)) && Nonempty<Shape>(ShapeCode(word))
  {
    forall s: Shape, t: Shape, x, y | Clash<Shape>(ShapeCode(word), s, t, x, y)
      ensures s == t && x == y
    {
      ShapeDecodes(word, s, t, x, y);
    }
    forall s: Shape
      ensures Enc<Shape>(ShapeCode(word), s) != []
    {
      TextsNonempty(word, s.texts);
    }
  }

  lemma TextsNonempty(word: Writer, texts: seq<Octets>)
    requires Nonempty<Word>(word) && |texts| == 4
    ensures All<Octets>(TextCode(word), texts, 4) != []
  {
    assert Enc<Octets>(TextCode(word), texts[3]) == Enc<Word>(word, |texts[3]|) + texts[3];
    assert Enc<Word>(word, |texts[3]|) != [];
  }

  lemma StreamDecodes(word: Writer, h: Hasher, d: Database, e: Database)
    requires Decodes<Word>(word) && Nonempty<Word>(word) && Stream(word, h, d) == Stream(word, h, e)
    ensures Pragmas(d) == Pragmas(e)
    ensures Shapes(word, h, d.schema, |d.schema|) == Shapes(word, h, e.schema, |e.schema|)
  {
    var s, t := Shapes(word, h, d.schema, |d.schema|), Shapes(word, h, e.schema, |e.schema|);
    PartsDecode(word);
    AllDecodes<Integer>(IntegerCode(word), Pragmas(d), Pragmas(e), 3, All<Shape>(ShapeCode(word), s, |s|),
      All<Shape>(ShapeCode(word), t, |t|));
    assert Pragmas(d) == Pragmas(d)[..3] && Pragmas(e) == Pragmas(e)[..3];
    ShapesDecode(word);
    ListDecodes<Shape>(ShapeCode(word), s, t);
  }

  // ----- Main result -----

  predicate SameHeader(e: Entry, f: Entry) {
    e.kind == f.kind && e.name == f.name && e.table == f.table && SqlText(e) == SqlText(f)
  }

  /** The same header, a missing and an empty SQL text alike, and for a table the same rows equally often. */
  predicate SameEntry(e: Entry, f: Entry) {
    SameHeader(e, f) && (e.kind == TABLE ==> multiset(e.rows) == multiset(f.rows))
  }

  predicate SameContent(d: Database, e: Database) {
    && d.userVersion == e.userVersion && d.applicationId == e.applicationId && d.autoVacuum == e.autoVacuum
    && |d.schema| == |e.schema|
    && forall i :: 0 <= i < |d.schema| ==> SameEntry(d.schema[i], e.schema[i])
  }

  /** Every string hashed while a database is fingerprinted. */
  ghost function Inputs(word: Writer, h: Hasher, db: Database): set<seq<byte>> {
    {Stream(word, h, db)}
    + set i, j | 0 <= i < |db.schema| && 0 <= j < |db.schema[i].rows| :: RowBytes(word, db.schema[i].rows[j])
  }

  ghost predicate NoCollision(h: Hasher, inputs: set<seq<byte>>) {
    forall x, y :: x in inputs && y in inputs && Hash(h, x) == Hash(h, y) ==> x == y
  }

  lemma RowsApart(word: Writer, h: Hasher, d: Database, e: Database, i: nat)
    requires Decodes<Word>(word) && NoCollision(h, Inputs(word, h, d) + Inputs(word, h, e))
    requires i < |d.schema| && i < |e.schema|
    ensures Apart<Row, Digest>(RowDigest(word, h), d.schema[i].rows, e.schema[i].rows)
  {
    var r, s, f := d.schema[i].rows, e.schema[i].rows, RowDigest(word, h);
    forall j, k | 0 <= j < |r| && 0 <= k < |s| && Image<Row, Digest>(f, r[j]) == Image<Row, Digest>(f, s[k])
      ensures r[j] == s[k]
    {
      var x, y := RowBytes(word, r[j]), RowBytes(word, s[k]);
      assert x in Inputs(word, h, d) && y in Inputs(word, h, e);
      assert Hash(h, x) == Hash(h, y);
      RowDecodes(word, r[j], s[k]);
    }
  }

  lemma DigestsCount(word: Writer, h: Hasher, r: Rows, s: Rows)
    requires Apart<Row, Digest>(RowDigest(word, h), r, s)
    ensures RowDigests(word, h, r) == RowDigests(word, h, s) <==> multiset(r) == multiset(s)
  {
    var f := RowDigest(word, h);
    ImagesCount<Row, Digest>(f, r, s);
    SortCanonical(Images<Row, Digest>(f, r, |r|), Images<Row, Digest>(f, s, |s|));
  }

  lemma EntriesAgree(word: Writer, h: Hasher, d: Database, e: Database, i: nat)
    requires Decodes<Word>(word) && NoCollision(h, Inputs(word, h, d) + Inputs(word, h, e))
    requires i < |d.schema| && i < |e.schema|
    ensures ShapeOf(word, h, d.schema[i]) == ShapeOf(word, h, e.schema[i]) <==> SameEntry(d.schema[i], e.schema[i])
  {
    RowsApart(word, h, d, e, i);
    DigestsCount(word, h, d.schema[i].rows, e.schema[i].rows);
    SameTexts(d.schema[i], e.schema[i]);
  }

  lemma SameTexts(e: Entry, f: Entry)
    ensures [e.kind, e.name, e.table, SqlText(e)] == [f.kind, f.name, f.table, SqlText(f)] <==> SameHeader(e, f)
  {
    var a, b := [e.kind, e.name, e.table, SqlText(e)], [f.kind, f.name, f.table, SqlText(f)];
    if a == b {
      assert a[0] == b[0] && a[1] == b[1] && a[2] == b[2] && a[3] == b[3];
    }
  }

  lemma SchemasAgree(word: Writer, h: Hasher, d: Database, e: Database)
    requires Decodes<Word>(word) && NoCollision(h, Inputs(word, h, d) + Inputs(word, h, e)) && |d.schema| == |e.schema|
    ensures Shapes(word, h, d.schema, |d.schema|) == Shapes(word, h, e.schema, |e.schema|)
       <==> forall i :: 0 <= i < |d.schema| ==> SameEntry(d.schema[i], e.schema[i])
  {
    var s, t := Shapes(word, h, d.schema, |d.schema|), Shapes(word, h, e.schema, |e.schema|);
    forall i: nat | i < |d.schema|
      ensures s[i] == t[i] <==> SameEntry(d.schema[i], e.schema[i])
    {
      EntriesAgree(word, h, d, e, i);
    }
  }

  /** Two streams are equal exactly when the contents are. */
  lemma StreamsAgree(word: Writer, h: Hasher, d: Database, e: Database)
    requires Decodes<Word>(word) && Nonempty<Word>(word) && NoCollision(h, Inputs(word, h, d) + Inputs(word, h, e))
    ensures Stream(word, h, d) == Stream(word, h, e) <==> SameContent(d, e)
  {
    if |d.schema| == |e.schema| {
      SchemasAgree(word, h, d, e);
    }
    if Stream(word, h, d) == Stream(word, h, e) {
      StreamDecodes(word, h, d, e);
      assert Pragmas(d)[0] == Pragmas(e)[0] && Pragmas(d)[1] == Pragmas(e)[1] && Pragmas(d)[2] == Pragmas(e)[2];
    }
  }

  /** Two databases have the same fingerprint exactly when they have the same content. */
  lemma FingerprintsAgree(h: Hasher, d: Database, e: Database)
    requires NoCollision(h, Inputs(WordBytes, h, d) + Inputs(WordBytes, h, e))
    ensures Fingerprint(h, d) == Fingerprint(h, e) <==> SameContent(d, e)
  {
    WordsDecode();
    StreamsAgree(WordBytes, h, d, e);
    assert Stream(WordBytes, h, d) in Inputs(WordBytes, h, d) && Stream(WordBytes, h, e) in Inputs(WordBytes, h, e);
  }
}
