/** The `multipart_producer` coroutine of both libraries: the body of a
    `multipart/form-data` request, written as a sequence of byte chunks.
    Each form field is one chunk; each file is a header chunk, its data in
    reads of at most 16 KiB, and a CRLF chunk; the closing delimiter comes
    last. The layout is the one of section 5.1.1 of RFC 2046, with the
    `Content-Disposition: form-data` part headers of section 4.2 of RFC 7578. */
module Multipart {
  import opened Values
  import Names
  import opened Entities

  /** `f.read(16 * 1024)`. */
  const ChunkSize: nat := 16 * 1024

  /* ---------------------------------------------------------------- text */

  /** Every character has a code point below 128. */
  predicate IsAscii(s: string) {
    forall i :: 0 <= i < |s| ==> s[i] as int < 128
  }

  /** The bytes of an ASCII string, one per character. */
  function Ascii(s: string): (r: seq<byte>)
    requires IsAscii(s)
    ensures |r| == |s|
  {
    seq(|s|, i requires 0 <= i < |s| => s[i] as int as byte)
  }

  /** Python 2's `.encode()` with the default codec: ASCII text becomes its
      bytes, anything else raises `UnicodeError`. */
  function Encode(s: string): (r: Option<seq<byte>>)
    ensures r.Some? <==> IsAscii(s)
    ensures r.Some? ==> |r.value| == |s| && forall i :: 0 <= i < |s| ==> r.value[i] as int == s[i] as int
  {
    if IsAscii(s) then Some(Ascii(s)) else None
  }

  /** Reading bytes back as characters (Latin-1). */
  function Decode(bs: seq<byte>): (s: string)
    ensures |s| == |bs|
  {
    seq(|bs|, i requires 0 <= i < |bs| => bs[i] as int as char)
  }

  /** Encoding is lossless: decoding the bytes gives the text back. */
  lemma EncodeDecode(s: string)
    requires IsAscii(s)
    ensures Decode(Encode(s).value) == s
  {
  }

  /** Byte strings below 128 are exactly the encodings of some text. */
  lemma DecodeEncode(bs: seq<byte>)
    ensures Encode(Decode(bs)).Some? <==> forall i :: 0 <= i < |bs| ==> bs[i] < 128
    ensures Encode(Decode(bs)).Some? ==> Encode(Decode(bs)).value == bs
  {
    if Encode(Decode(bs)).Some? {
      forall i | 0 <= i < |bs|
        ensures bs[i] < 128
      {
        assert Decode(bs)[i] as int < 128;
      }
    }
  }

  /* -------------------------------------------------------------- layout */

  function CRLF(): seq<byte> {
    Ascii("\r\n")
  }

  /** `--B\r\n`: the line that opens every part. */
  function Delimiter(b: seq<byte>): seq<byte> {
    Ascii("--") + b + CRLF()
  }

  /** `--B--\r\n`: the closing delimiter and the CRLF after it. */
  function Closer(b: seq<byte>): seq<byte> {
    Ascii("--") + b + Ascii("--") + CRLF()
  }

  /** The header line of a form field. */
  function FieldHeaders(key: seq<byte>): seq<byte> {
    Ascii("Content-Disposition: form-data; name=\"") + key + Ascii("\"") + CRLF()
  }

  /** The header lines of a file field. */
  function FileHeaders(key: seq<byte>, filename: seq<byte>, mime: seq<byte>): seq<byte> {
    Ascii("Content-Disposition: form-data; name=\"") + key + Ascii("\"; filename=\"") + filename + Ascii("\"")
    + CRLF() + Ascii("Content-Type: ") + mime + CRLF()
  }

  /** The concatenation of the written chunks: the body the server receives. */
  function Flatten(cs: seq<seq<byte>>): seq<byte> {
    if cs == [] then [] else cs[0] + Flatten(cs[1..])
  }

  lemma {:induction false} FlattenAppend(a: seq<seq<byte>>, b: seq<seq<byte>>)
    ensures Flatten(a + b) == Flatten(a) + Flatten(b)
  {
    if a == [] {
      assert a + b == b;
    } else {
      assert (a + b)[1..] == a[1..] + b;
      FlattenAppend(a[1..], b);
    }
  }

  lemma FlattenSingle(x: seq<byte>)
    ensures Flatten([x]) == x
  {
    assert [x][1..] == [];
  }

  /** The `while True: chunk = f.read(16 * 1024)` loop over a file holding
      `d`: the data in reads of at most `ChunkSize` bytes, every read but the
      last one full, nothing written for an empty file. */
  function ChunkData(d: seq<byte>): (cs: seq<seq<byte>>)
    ensures Flatten(cs) == d
    ensures forall i :: 0 <= i < |cs| ==> 0 < |cs[i]| <= ChunkSize
    ensures forall i :: 0 <= i < |cs| - 1 ==> |cs[i]| == ChunkSize
    decreases |d|
  {
    if |d| == 0 then []
    else
      var n := if |d| < ChunkSize then |d| else ChunkSize;
      var rest := ChunkData(d[n..]);
      assert ([d[..n]] + rest)[1..] == rest;
      assert d == d[..n] + d[n..];
      assert rest != [] ==> n == ChunkSize;
      [d[..n]] + rest
  }

  /** A file of `|d|` bytes takes `|d| / ChunkSize` reads, rounded up. */
  lemma {:induction false} ChunkCount(d: seq<byte>)
    ensures |ChunkData(d)| == (|d| + ChunkSize - 1) / ChunkSize
    decreases |d|
  {
    if |d| >= ChunkSize {
      var rest := d[ChunkSize..];
      assert |ChunkData(d)| == 1 + |ChunkData(rest)|;
      ChunkCount(rest);
      assert (|rest| + ChunkSize - 1 + ChunkSize) / ChunkSize == (|rest| + ChunkSize - 1) / ChunkSize + 1;
    } else if |d| > 0 {
      assert |ChunkData(d)| == 1 + |ChunkData(d[|d|..])|;
      assert |ChunkData(d[|d|..])| == 0;
    }
  }

  /* ------------------------------------------------------------ producer */

  /** A value of the files dict: a `(filename, file, mime)` triple over an
      open file, or some other Python value put where a file was expected
      (a file id string, say). `Raw(Null)` is Python's None. */
  datatype Media = Upload(file: FileTriple) | Raw(v: Value)

  /** Python 2's `x.encode()` on a value: a str is encoded (or raises
      UnicodeError); no other value has an `encode` method. */
  function EncodeValue(v: Value): (r: Outcome<seq<byte>>)
    ensures r.Ok? <==> v.Str? && IsAscii(v.s)
    ensures r.Ok? ==> r.value == Ascii(v.s)
    ensures r.Raise? ==> r.exc == (if v.Str? then UnicodeError else AttributeError)
  {
    if !v.Str? then Raise(AttributeError)
    else match Encode(v.s)
      case None => Raise(UnicodeError)
      case Some(bs) => Ok(bs)
  }

  /** What the coroutine wrote, and the exception that ended it early, if any. */
  datatype Emission = Emission(chunks: seq<seq<byte>>, error: Option<Exc>)

  predicate AllAsciiFields(fields: seq<(string, string)>) {
    forall i :: 0 <= i < |fields| ==> IsAscii(fields[i].0) && IsAscii(fields[i].1)
  }

  /** Every file entry is an uploaded file whose key, name and type are ASCII. */
  predicate AllAsciiFiles(files: seq<(string, Media)>) {
    forall j :: 0 <= j < |files| ==> Writable(files[j])
  }

  predicate Writable(entry: (string, Media)) {
    entry.1.Upload? && IsAscii(entry.0) && IsAscii(entry.1.file.name) && IsAscii(entry.1.file.mime)
  }

  /** Every file entry is an uploaded file. */
  predicate AllUploads(files: seq<(string, Media)>) {
    forall j :: 0 <= j < |files| ==> files[j].1.Upload?
  }

  /** The first loop of the producer, over `(key, str(value))` pairs: one
      chunk per field, built completely before it is written, so a field
      whose key or value is not ASCII stops the producer without writing it. */
  function FieldChunks(b: seq<byte>, fields: seq<(string, string)>): (e: Emission)
    ensures e.error.None? <==> AllAsciiFields(fields)
    ensures e.error.Some? ==> e.error == Some(UnicodeError)
    ensures e.error.None? ==> |e.chunks| == |fields|
    ensures e.error.None? ==> forall i :: 0 <= i < |fields| ==> Delimiter(b) <= e.chunks[i]
    decreases |fields|
  {
    if fields == [] then Emission([], None)
    else
      var k, v := Encode(fields[0].0), Encode(fields[0].1);
      if k.None? || v.None? then Emission([], Some(UnicodeError))
      else
        var rest := FieldChunks(b, fields[1..]);
        assert AllAsciiFields(fields) <==> AllAsciiFields(fields[1..]) by {
          if AllAsciiFields(fields[1..]) {
            forall i | 0 < i < |fields|
              ensures IsAscii(fields[i].0) && IsAscii(fields[i].1)
            {
              assert fields[i] == fields[1..][i - 1];
            }
          }
        }
        Emission([Delimiter(b) + FieldHeaders(k.value) + CRLF() + v.value + CRLF()] + rest.chunks, rest.error)
  }

  /** The second loop of the producer, over `(key, (filename, data, mime))`:
      the header chunk, the data chunks, then a CRLF chunk. An entry that is
      not an uploaded file stops the loop with the exception `RawChunks`
      gives. */
  function FileChunks(b: seq<byte>, files: seq<(string, Media)>): (e: Emission)
    ensures e.error.None? <==> AllAsciiFiles(files)
    ensures AllUploads(files) && e.error.Some? ==> e.error == Some(UnicodeError)
    decreases |files|
  {
    if files == [] then Emission([], None)
    else if files[0].1.Raw? then RawChunks(b, files[0].0, files[0].1.v)
    else
      var f := files[0].1.file;
      var k, n, m := Encode(files[0].0), Encode(f.name), Encode(f.mime);
      if k.None? || n.None? || m.None? then Emission([], Some(UnicodeError))
      else
        var rest := FileChunks(b, files[1..]);
        assert AllAsciiFiles(files) <==> AllAsciiFiles(files[1..]) by {
          if AllAsciiFiles(files[1..]) {
            forall j | 0 < j < |files|
              ensures Writable(files[j])
            {
              assert files[j] == files[1..][j - 1];
            }
          }
        }
        assert AllUploads(files) ==> AllUploads(files[1..]) by {
          if AllUploads(files) {
            forall j | 0 <= j < |files| - 1
              ensures files[1..][j].1.Upload?
            {
              assert files[1..][j] == files[j + 1];
            }
          }
        }
        Emission([Delimiter(b) + FileHeaders(k.value, n.value, m.value) + CRLF()] + ChunkData(f.data) + [CRLF()] + rest.chunks, rest.error)
  }

  /** One iteration of the file loop on a value that is not an uploaded
      file: `value[0]`, `value[1]` and `value[2]` are read, the key, name
      and type are encoded and the header chunk is written; then `f.read`
      raises AttributeError, since no such value has a `read` method. A
      value with fewer than three items fails at the first missing one. */
  function RawChunks(b: seq<byte>, key: string, v: Value): (e: Emission)
    ensures e.error.Some?
    ensures |e.chunks| <= 1
    ensures e.error == Some(AttributeError) && v.Str? ==> |v.s| >= 3 && |e.chunks| == 1
    ensures (v.Str? || v.List?) && Len(v).value < 3 ==> e == Emission([], Some(IndexError))
    ensures v.Null? || v.Bool? || v.Int? ==> e == Emission([], Some(TypeError))
    ensures v.Str? && |v.s| >= 3 && IsAscii(key) && IsAscii(v.s[..3]) ==>
      e == Emission([Delimiter(b) + FileHeaders(Ascii(key), Ascii([v.s[0]]), Ascii([v.s[2]])) + CRLF()], Some(AttributeError))
  {
    var name, f, mime := Item(v, 0), Item(v, 1), Item(v, 2);
    if name.Raise? then Emission([], Some(name.exc))
    else if f.Raise? then Emission([], Some(f.exc))
    else if mime.Raise? then Emission([], Some(mime.exc))
    else
      var k, n, m := Encode(key), EncodeValue(name.value), EncodeValue(mime.value);
      if k.None? then Emission([], Some(UnicodeError))
      else if n.Raise? then Emission([], Some(n.exc))
      else if m.Raise? then Emission([], Some(m.exc))
      else Emission([Delimiter(b) + FileHeaders(k.value, n.value, m.value) + CRLF()], Some(AttributeError))
  }

  /** The producer over fields and files in iteration order: the boundary is
      encoded first, then the fields are written, then the files, then the
      closing delimiter. */
  function ProduceParts(boundary: string, fields: seq<(string, string)>, files: seq<(string, Media)>): Emission {
    match Encode(boundary)
    case None => Emission([], Some(UnicodeError))
    case Some(b) =>
      var f := FieldChunks(b, fields);
      if f.error.Some? then f
      else
        var g := FileChunks(b, files);
        if g.error.Some? then Emission(f.chunks + g.chunks, g.error)
        else Emission(f.chunks + g.chunks + [Closer(b)], None)
  }

  /** `(key, str(value))` for every entry of the body dict, in key order. */
  function FieldsOf(str: Value -> string, body: map<string, Value>): (r: seq<(string, string)>)
    ensures |r| == |body|
    ensures forall i :: 0 <= i < |r| ==> r[i].0 in body && r[i].1 == str(body[r[i].0])
    ensures forall k :: k in body ==> exists i :: 0 <= i < |r| && r[i].0 == k
    ensures forall i, j :: 0 <= i < j < |r| ==> Names.Below(r[i].0, r[j].0)
  {
    var names := Names.Sorted(body.Keys);
    assert |body.Keys| == |body|;
    var r := seq(|names|, i requires 0 <= i < |names| => (names[i], str(body[names[i]])));
    forall i | 0 <= i < |r|
      ensures r[i].0 in body && r[i].1 == str(body[r[i].0])
    {
      assert r[i] == (names[i], str(body[names[i]]));
    }
    forall i, j | 0 <= i < j < |r|
      ensures Names.Below(r[i].0, r[j].0)
    {
      assert r[i].0 == names[i] && r[j].0 == names[j];
    }
    forall k | k in body
      ensures exists i :: 0 <= i < |r| && r[i].0 == k
    {
      var i :| 0 <= i < |names| && names[i] == k;
      assert r[i].0 == k;
    }
    r
  }

  /** `(key, file)` for every entry of the files dict, in key order. */
  function FilesOf(files: map<string, Media>): (r: seq<(string, Media)>)
    ensures |r| == |files|
    ensures forall i :: 0 <= i < |r| ==> r[i].0 in files && r[i].1 == files[r[i].0]
    ensures forall k :: k in files ==> exists i :: 0 <= i < |r| && r[i].0 == k
    ensures forall i, j :: 0 <= i < j < |r| ==> Names.Below(r[i].0, r[j].0)
  {
    var names := Names.Sorted(files.Keys);
    assert |files.Keys| == |files|;
    var r := seq(|names|, i requires 0 <= i < |names| => (names[i], files[names[i]]));
    forall i | 0 <= i < |r|
      ensures r[i].0 in files && r[i].1 == files[r[i].0]
    {
      assert r[i] == (names[i], files[names[i]]);
    }
    forall i, j | 0 <= i < j < |r|
      ensures Names.Below(r[i].0, r[j].0)
    {
      assert r[i].0 == names[i] && r[j].0 == names[j];
    }
    forall k | k in files
      ensures exists i :: 0 <= i < |r| && r[i].0 == k
    {
      var i :| 0 <= i < |names| && names[i] == k;
      assert r[i].0 == k;
    }
    r
  }

  lemma FilesOfSingle(k: string, m: Media)
    ensures FilesOf(map[k := m]) == [(k, m)]
  {
    var r := FilesOf(map[k := m]);
    assert |r| == 1 && r[0].0 in map[k := m];
  }

  /** `multipart_producer(boundary, body, files, write)`, with `str` the
      conversion applied to each body value. */
  function Produce(boundary: string, str: Value -> string, body: map<string, Value>, files: map<string, Media>): Emission {
    ProduceParts(boundary, FieldsOf(str, body), FilesOf(files))
  }

  /** Everything the producer encodes is ASCII. */
  predicate Encodable(boundary: string, fields: seq<(string, string)>, files: seq<(string, Media)>) {
    IsAscii(boundary) && AllAsciiFields(fields) && AllAsciiFiles(files)
  }

  /* ------------------------------------------------------ RFC 2046 layout */

  /** A body part: its header lines (each ending in CRLF), an empty line,
      then its content. */
  function PartBytes(p: (seq<byte>, seq<byte>)): seq<byte> {
    p.0 + CRLF() + p.1
  }

  /** `*encapsulation`, each being `CRLF --B CRLF body-part`. */
  function Encapsulations(b: seq<byte>, ps: seq<(seq<byte>, seq<byte>)>): seq<byte> {
    if ps == [] then [] else CRLF() + Ascii("--") + b + CRLF() + PartBytes(ps[0]) + Encapsulations(b, ps[1..])
  }

  /** A multipart body as section 5.1.1 of RFC 2046 lays it out, with no
      preamble and an epilogue of one CRLF:
      `--B CRLF body-part *encapsulation CRLF --B-- CRLF`. The grammar
      requires at least one part. */
  function RfcBody(b: seq<byte>, ps: seq<(seq<byte>, seq<byte>)>): seq<byte>
    requires ps != []
  {
    Ascii("--") + b + CRLF() + PartBytes(ps[0]) + Encapsulations(b, ps[1..]) + CRLF() + Ascii("--") + b + Ascii("--") + CRLF()
  }

  /** The (headers, content) of each field. */
  function FieldSpecs(fields: seq<(string, string)>): (ps: seq<(seq<byte>, seq<byte>)>)
    requires AllAsciiFields(fields)
    ensures |ps| == |fields|
  {
    if fields == [] then []
    else
      assert fields[1..][0..] == fields[1..];
      assert forall i :: 0 <= i < |fields[1..]| ==> fields[1..][i] == fields[i + 1];
      [(FieldHeaders(Ascii(fields[0].0)), Ascii(fields[0].1))] + FieldSpecs(fields[1..])
  }

  /** The (headers, content) of each file: the content is the file's data. */
  function FileSpecs(files: seq<(string, Media)>): (ps: seq<(seq<byte>, seq<byte>)>)
    requires AllAsciiFiles(files)
    ensures |ps| == |files|
    ensures forall j :: 0 <= j < |files| ==> ps[j].1 == files[j].1.file.data
  {
    if files == [] then []
    else
      assert forall j :: 0 <= j < |files[1..]| ==> files[1..][j] == files[j + 1];
      assert Writable(files[0]);
      var f := files[0].1.file;
      [(FileHeaders(Ascii(files[0].0), Ascii(f.name), Ascii(f.mime)), f.data)] + FileSpecs(files[1..])
  }

  /** `--B CRLF part CRLF` for every part. */
  function Segments(b: seq<byte>, ps: seq<(seq<byte>, seq<byte>)>): seq<byte> {
    if ps == [] then [] else Delimiter(b) + PartBytes(ps[0]) + CRLF() + Segments(b, ps[1..])
  }

  lemma {:induction false} SegmentsAppend(b: seq<byte>, xs: seq<(seq<byte>, seq<byte>)>, ys: seq<(seq<byte>, seq<byte>)>)
    ensures Segments(b, xs + ys) == Segments(b, xs) + Segments(b, ys)
  {
    if xs == [] {
      assert xs + ys == ys;
    } else {
      assert (xs + ys)[1..] == xs[1..] + ys;
      SegmentsAppend(b, xs[1..], ys);
    }
  }

  lemma Regroup(c: seq<byte>, a: seq<byte>, b: seq<byte>, p: seq<byte>)
    ensures c + a + b + c + p == c + (a + b + c + p)
  {
  }

  lemma ShiftStep(c: seq<byte>, x: seq<byte>, e: seq<byte>, t: seq<byte>)
    requires e + c == c + t
    ensures c + x + e + c == c + (x + c + t)
  {
    calc {
      c + x + e + c;
      c + x + (e + c);
      c + x + (c + t);
      c + (x + c + t);
    }
  }

  lemma Regroup4(y: seq<byte>, a: seq<byte>, b: seq<byte>, d: seq<byte>, c: seq<byte>)
    ensures y + a + b + d + c == y + (a + b + d + c)
  {
  }

  lemma PartStep(y: seq<byte>, h: seq<byte>, c: seq<byte>, d: seq<byte>, t: seq<byte>)
    ensures y + h + c + d + c + t == y + (h + c + d) + c + t
  {
  }

  lemma CloseStep(x: seq<byte>, c: seq<byte>, e: seq<byte>, t: seq<byte>, z: seq<byte>)
    requires e + c == c + t
    ensures x + c + t + z == x + e + c + z
  {
    calc {
      x + c + t + z;
      x + (c + t) + z;
      x + (e + c) + z;
      x + e + c + z;
    }
  }

  /** Moving each part's trailing CRLF to the front of the next delimiter. */
  lemma {:induction false} EncapsulationsShift(b: seq<byte>, ps: seq<(seq<byte>, seq<byte>)>)
    ensures Encapsulations(b, ps) + CRLF() == CRLF() + Segments(b, ps)
  {
    if ps != [] {
      var c, a, p := CRLF(), Ascii("--"), PartBytes(ps[0]);
      var e, t := Encapsulations(b, ps[1..]), Segments(b, ps[1..]);
      EncapsulationsShift(b, ps[1..]);
      assert Encapsulations(b, ps) == c + a + b + c + p + e;
      Regroup(c, a, b, p);
      assert Segments(b, ps) == a + b + c + p + c + t;
      ShiftStep(c, a + b + c + p, e, t);
    }
  }

  lemma {:induction false} FieldBytes(b: seq<byte>, fields: seq<(string, string)>)
    requires AllAsciiFields(fields)
    ensures Flatten(FieldChunks(b, fields).chunks) == Segments(b, FieldSpecs(fields))
  {
    if fields != [] {
      assert forall i :: 0 <= i < |fields[1..]| ==> fields[1..][i] == fields[i + 1];
      FieldBytes(b, fields[1..]);
    }
  }

  lemma {:induction false} FileBytes(b: seq<byte>, files: seq<(string, Media)>)
    requires AllAsciiFiles(files)
    ensures Flatten(FileChunks(b, files).chunks) == Segments(b, FileSpecs(files))
  {
    if files != [] {
      assert forall j :: 0 <= j < |files[1..]| ==> files[1..][j] == files[j + 1];
      assert Writable(files[0]);
      var f := files[0].1.file;
      var head := Delimiter(b) + FileHeaders(Ascii(files[0].0), Ascii(f.name), Ascii(f.mime)) + CRLF();
      var c := ChunkData(f.data);
      var rest := FileChunks(b, files[1..]);
      assert FileChunks(b, files).chunks == [head] + c + [CRLF()] + rest.chunks;
      FileBytes(b, files[1..]);
      calc {
        Flatten([head] + c + [CRLF()] + rest.chunks);
        { FlattenAppend([head] + c + [CRLF()], rest.chunks); }
        Flatten([head] + c + [CRLF()]) + Flatten(rest.chunks);
        { FlattenAppend([head] + c, [CRLF()]); FlattenSingle(CRLF()); }
        Flatten([head] + c) + CRLF() + Flatten(rest.chunks);
        { FlattenAppend([head], c); FlattenSingle(head); }
        head + f.data + CRLF() + Segments(b, FileSpecs(files[1..]));
      }
      var hdr := FileHeaders(Ascii(files[0].0), Ascii(f.name), Ascii(f.mime));
      assert FileSpecs(files) == [(hdr, f.data)] + FileSpecs(files[1..]);
      assert ([(hdr, f.data)] + FileSpecs(files[1..]))[1..] == FileSpecs(files[1..]);
      assert Segments(b, FileSpecs(files))
          == Delimiter(b) + PartBytes((hdr, f.data)) + CRLF() + Segments(b, FileSpecs(files[1..]));
      PartStep(Delimiter(b), hdr, CRLF(), f.data, Segments(b, FileSpecs(files[1..])));
    }
  }

  /** The body the producer writes, read as one byte string, is the RFC 2046
      multipart body of its fields followed by its files, whenever there is
      at least one part to write and everything it encodes is ASCII. */
  lemma BodyFollowsRfc2046(boundary: string, fields: seq<(string, string)>, files: seq<(string, Media)>)
    requires Encodable(boundary, fields, files)
    requires |fields| + |files| > 0
    ensures ProduceParts(boundary, fields, files).error.None?
    ensures Flatten(ProduceParts(boundary, fields, files).chunks)
         == RfcBody(Ascii(boundary), FieldSpecs(fields) + FileSpecs(files))
  {
    var b := Ascii(boundary);
    var fs, gs := FieldSpecs(fields), FileSpecs(files);
    var f, g := FieldChunks(b, fields), FileChunks(b, files);
    assert ProduceParts(boundary, fields, files).chunks == f.chunks + g.chunks + [Closer(b)];
    calc {
      Flatten(f.chunks + g.chunks + [Closer(b)]);
      { FlattenAppend(f.chunks + g.chunks, [Closer(b)]); FlattenAppend(f.chunks, g.chunks); FlattenSingle(Closer(b)); }
      Flatten(f.chunks) + Flatten(g.chunks) + Closer(b);
      { FieldBytes(b, fields); FileBytes(b, files); SegmentsAppend(b, fs, gs); }
      Segments(b, fs + gs) + Closer(b);
      { SegmentsClose(b, fs + gs); }
      RfcBody(b, fs + gs);
    }
  }

  /** Segments followed by the closing delimiter are the RFC 2046 body. */
  lemma SegmentsClose(b: seq<byte>, ps: seq<(seq<byte>, seq<byte>)>)
    requires ps != []
    ensures Segments(b, ps) + Closer(b) == RfcBody(b, ps)
  {
    var c, a, p := CRLF(), Ascii("--"), PartBytes(ps[0]);
    var e, t := Encapsulations(b, ps[1..]), Segments(b, ps[1..]);
    EncapsulationsShift(b, ps[1..]);
    assert Segments(b, ps) == a + b + c + p + c + t;
    Regroup4(a + b + c + p + e + c, a, b, a, c);
    CloseStep(a + b + c + p, c, e, t, Closer(b));
  }

  /** The producer completes exactly when every file entry is an uploaded
      file and everything it encodes is ASCII; when the files are all
      uploads, the only way it can fail is `UnicodeError`. A complete emission ends with the closing
      delimiter and opens with the fields, one chunk each. */
  lemma CompleteIffEncodable(boundary: string, fields: seq<(string, string)>, files: seq<(string, Media)>)
    ensures ProduceParts(boundary, fields, files).error.None? <==> Encodable(boundary, fields, files)
    ensures AllUploads(files) && ProduceParts(boundary, fields, files).error.Some? ==>
      ProduceParts(boundary, fields, files).error == Some(UnicodeError)
    ensures Encodable(boundary, fields, files) ==>
      var cs := ProduceParts(boundary, fields, files).chunks;
      && |cs| > |fields|
      && cs[|cs| - 1] == Closer(Ascii(boundary))
      && cs[..|fields|] == FieldChunks(Ascii(boundary), fields).chunks
  {
    if Encodable(boundary, fields, files) {
      var b := Ascii(boundary);
      var f := FieldChunks(b, fields);
      var g := FileChunks(b, files);
      assert ProduceParts(boundary, fields, files).chunks == f.chunks + g.chunks + [Closer(b)];
      assert (f.chunks + g.chunks + [Closer(b)])[..|fields|] == f.chunks;
    }
  }

  /** A single files entry that is not an uploaded file: the producer
      never completes, and once the boundary and the fields are encoded its
      exception is the one `RawChunks` raises. */
  lemma RawFileStops(boundary: string, fields: seq<(string, string)>, key: string, v: Value)
    ensures ProduceParts(boundary, fields, [(key, Raw(v))]).error.Some?
    ensures IsAscii(boundary) && AllAsciiFields(fields) ==>
      ProduceParts(boundary, fields, [(key, Raw(v))]).error == RawChunks(Ascii(boundary), key, v).error
  {
  }

  /** The same for a string put where a file was expected: too short, it
      fails on `value[2]`; long enough and ASCII, on `f.read`. */
  lemma RawStringStops(boundary: string, fields: seq<(string, string)>, key: string, s: string)
    requires IsAscii(boundary) && AllAsciiFields(fields) && IsAscii(key)
    ensures |s| < 3 ==> ProduceParts(boundary, fields, [(key, Raw(Str(s)))]).error == Some(IndexError)
    ensures |s| >= 3 && IsAscii(s[..3]) ==> ProduceParts(boundary, fields, [(key, Raw(Str(s)))]).error == Some(AttributeError)
  {
    RawFileStops(boundary, fields, key, Str(s));
  }

  /** A field that cannot be encoded ends the producer: what was written is
      the fields before it, and nothing after it, the files and the closing
      delimiter included, is written. */
  lemma {:induction false} FieldFailureStops(b: seq<byte>, fields: seq<(string, string)>, i: nat)
    requires i < |fields|
    requires AllAsciiFields(fields[..i])
    requires !(IsAscii(fields[i].0) && IsAscii(fields[i].1))
    ensures FieldChunks(b, fields) == Emission(FieldChunks(b, fields[..i]).chunks, Some(UnicodeError))
    decreases i
  {
    if i > 0 {
      assert fields[1..][..i - 1] == fields[..i][1..];
      assert fields[1..][i - 1] == fields[i];
      assert AllAsciiFields(fields[..i][1..]) by {
        forall j | 0 <= j < i - 1
          ensures IsAscii(fields[..i][1..][j].0) && IsAscii(fields[..i][1..][j].1)
        {
          assert fields[..i][1..][j] == fields[..i][j + 1];
        }
      }
      assert fields[..i][0] == fields[0];
      FieldFailureStops(b, fields[1..], i - 1);
    }
  }

  /** Every file contributes its header, its data in full reads with a
      shorter last one, and a CRLF: the data chunks of one file put back
      together are the file. */
  lemma FileDataReassembles(d: seq<byte>)
    ensures Flatten(ChunkData(d)) == d
    ensures |d| <= ChunkSize ==> ChunkData(d) == (if d == [] then [] else [d])
  {
    if 0 < |d| <= ChunkSize {
      assert d[..|d|] == d;
    }
  }
}
