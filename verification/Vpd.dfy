/** Vital product data of a PCI card (addons/intel/phaseAdjust.go; Appendix I of the PCI Local Bus Specification 3.0). */
module Vpd {
  import opened PtpTypes

  type Byte = b: int | 0 <= b < 256
  type Bytes = seq<Byte>

  const ID_STRING_TAG: Byte := 0x82
  const RO_TAG: Byte := 0x90
  const END_TAG: Byte := 0x78
  const V: Byte := 0x56
  const KEY_SN: Bytes := [0x53, 0x4E]
  const KEY_PN: Bytes := [0x50, 0x4E]
  const KEY_V1: Bytes := [0x56, 0x31]
  const KEY_V2: Bytes := [0x56, 0x32]

  datatype Vpd = Vpd(identifier: Bytes, partNumber: Bytes, serialNumber: Bytes, vendor1: Bytes, vendor2: Bytes)

  const BLANK := Vpd([], [], [], [], [])

  /** A slice or index out of range, and the loop that never advances, are outcomes of their own. */
  datatype Outcome = Done(vpd: Vpd) | OutOfBounds | Diverges

  // ---------------------------------------------------------------- what the scanner does

  predicate Kept(keyword: Bytes) {
    (keyword != [] && keyword[0] == V) || keyword == KEY_PN || keyword == KEY_SN
  }

  function Collected(rv: map<Bytes, Bytes>, keyword: Bytes, data: Bytes): map<Bytes, Bytes> {
    if Kept(keyword) then rv[keyword := data] else rv
  }

  /**
   * parseVpdBlock from `pos` to the end of its block. Slices are checked against the file, because a block shares
   * the file's backing array; the length byte is checked against the block.
   */
  function ScanFields(file: Bytes, pos: nat, end: nat, rv: map<Bytes, Bytes>): Option<map<Bytes, Bytes>>
    requires end <= |file|
    decreases |file| + 3 - pos
  {
    if pos >= end then Some(rv)
    else if pos + 2 > |file| || pos + 2 >= end then None
    else
      var next := pos + file[pos + 2] as int + 3;
      if next > |file| then None
      else ScanFields(file, next, end, Collected(rv, file[pos..pos + 2], file[pos + 3..next]))
  }

  /** The fields ParseVpd takes over from a read-only block. */
  function Adopt(vpd: Vpd, ro: map<Bytes, Bytes>): Vpd {
    vpd.(serialNumber := if KEY_SN in ro then ro[KEY_SN] else vpd.serialNumber,
         partNumber := if KEY_PN in ro then ro[KEY_PN] else vpd.partNumber,
         vendor1 := if KEY_V1 in ro then ro[KEY_V1] else vpd.vendor1,
         vendor2 := if KEY_V2 in ro then ro[KEY_V2] else vpd.vendor2)
  }

  function BlockLength(file: Bytes, pos: nat): (len: nat)
    requires pos + 3 <= |file|
    ensures len < 0x1_0000
  {
    file[pos + 1] as int + 256 * file[pos + 2] as int
  }

  /** How far the offset moves past a block: the sum is computed in 16 bits. */
  function Advance(len: nat): nat {
    if len + 3 < 0x1_0000 then len + 3 else len + 3 - 0x1_0000
  }

  /** Sixteen bits of a length plus three. */
  function Sum16(len: nat): (n: nat)
    requires len < 0x1_0000
    ensures n == Advance(len)
  {
    (len + 3) % 0x1_0000
  }

  /** What the block at `pos` adds. */
  function Taken(file: Bytes, pos: nat, len: nat, vpd: Vpd): Option<Vpd>
    requires pos + 3 + len <= |file|
  {
    if file[pos] == ID_STRING_TAG then Some(vpd.(identifier := file[pos + 3..pos + 3 + len]))
    else if file[pos] == RO_TAG then
      match ScanFields(file, pos + 3, pos + 3 + len, map[])
      case Some(ro) => Some(Adopt(vpd, ro))
      case None => None
    else Some(vpd)
  }

  /** ParseVpd from `pos` on. */
  function Scan(file: Bytes, pos: nat, vpd: Vpd): Outcome
    requires pos <= |file|
    decreases |file| - pos
  {
    if pos == |file| then Done(vpd)
    else if pos + 3 > |file| || pos + 3 + BlockLength(file, pos) > |file| then OutOfBounds
    else if file[pos] == END_TAG then Done(vpd)
    else
      var len := BlockLength(file, pos);
      match Taken(file, pos, len, vpd)
      case None => OutOfBounds
      case Some(v) => if Advance(len) == 0 then Diverges else Scan(file, pos + Advance(len), v)
  }

  // ---------------------------------------------------------------- the code

  method ParseVpdBlock(file: Bytes, start: nat, end: nat) returns (r: Option<map<Bytes, Bytes>>)
    requires start <= end <= |file|
    ensures r == ScanFields(file, start, end, map[])
  {
    var rv: map<Bytes, Bytes> := map[];
    var offset := start;
    while offset < end
      invariant offset <= |file|
      invariant ScanFields(file, start, end, map[]) == ScanFields(file, offset, end, rv)
      decreases |file| + 3 - offset
    {
      if offset + 2 > |file| || offset + 2 >= end { return None; }
      var keyword := file[offset..offset + 2];
      var n: nat := file[offset + 2] as int;
      if offset + n + 3 > |file| { return None; }
      var data := file[offset + 3..offset + n + 3];
      if keyword[0] == V || keyword == KEY_PN || keyword == KEY_SN {
        rv := rv[keyword := data];
      }
      offset := offset + n + 3;
    }
    return Some(rv);
  }

  /** The range over the block's map: its order does not matter. */
  method AdoptAll(start: Vpd, ro: map<Bytes, Bytes>) returns (vpd: Vpd)
    ensures vpd == Adopt(start, ro)
  {
    vpd := start;
    var todo := ro.Keys;
    while todo != {}
      invariant todo <= ro.Keys
      invariant vpd == Adopt(start, map k | k in ro.Keys - todo :: ro[k])
      decreases todo
    {
      var k :| k in todo;
      todo := todo - {k};
      if k == KEY_SN { vpd := vpd.(serialNumber := ro[k]); }
      else if k == KEY_PN { vpd := vpd.(partNumber := ro[k]); }
      else if k == KEY_V1 { vpd := vpd.(vendor1 := ro[k]); }
      else if k == KEY_V2 { vpd := vpd.(vendor2 := ro[k]); }
    }
    assert (map k | k in ro.Keys - {} :: ro[k]) == ro;
  }

  /** The product data after one block that is not the end. */
  method TakeBlock(file: Bytes, pos: nat, len: nat, start: Vpd) returns (vpd: Option<Vpd>)
    requires pos + 3 + len <= |file|
    ensures vpd == Taken(file, pos, len, start)
  {
    if file[pos] == ID_STRING_TAG {
      return Some(start.(identifier := file[pos + 3..pos + 3 + len]));
    } else if file[pos] == RO_TAG {
      var ro := ParseVpdBlock(file, pos + 3, pos + 3 + len);
      if ro.None? { return None; }
      var v := AdoptAll(start, ro.value);
      return Some(v);
    }
    return Some(start);
  }

  method ParseVpd(file: Bytes) returns (r: Outcome)
    ensures r == Scan(file, 0, BLANK)
  {
    var vpd := BLANK;
    var offset := 0;
    while offset < |file|
      invariant offset <= |file|
      invariant Scan(file, 0, BLANK) == Scan(file, offset, vpd)
      decreases |file| - offset
    {
      if offset + 3 > |file| { return OutOfBounds; }
      var lenBlock: nat := file[offset + 1] as int + 256 * file[offset + 2] as int;
      if offset + 3 + lenBlock > |file| { return OutOfBounds; }
      if file[offset] == END_TAG { return Done(vpd); }
      var v := TakeBlock(file, offset, lenBlock, vpd);
      if v.None? { return OutOfBounds; }
      vpd := v.value;
      var advance := Sum16(lenBlock);
      if advance == 0 { return Diverges; }
      offset := offset + advance;
    }
    return Done(vpd);
  }

  // ---------------------------------------------------------------- the format

  datatype Field = Field(keyword: Bytes, data: Bytes)

  datatype Resource =
    | Identifier(text: Bytes)
    | ReadOnly(fields: seq<Field>)
    | Other(tag: Byte, body: Bytes)

  predicate WellFormedField(f: Field) {
    |f.keyword| == 2 && |f.data| < 256
  }

  function EncodeField(f: Field): Bytes
    requires WellFormedField(f)
  {
    f.keyword + [|f.data|] + f.data
  }

  predicate WellFormedFields(fs: seq<Field>) {
    forall i :: 0 <= i < |fs| ==> WellFormedField(fs[i])
  }

  function EncodeFields(fs: seq<Field>): Bytes
    requires WellFormedFields(fs)
  {
    if fs == [] then [] else EncodeField(fs[0]) + EncodeFields(fs[1..])
  }

  predicate WellFormedShape(r: Resource) {
    match r
    case Identifier(_) => true
    case ReadOnly(fs) => WellFormedFields(fs)
    case Other(tag, _) => tag !in {ID_STRING_TAG, RO_TAG, END_TAG}
  }

  function Tag(r: Resource): Byte {
    match r
    case Identifier(_) => ID_STRING_TAG
    case ReadOnly(_) => RO_TAG
    case Other(tag, _) => tag
  }

  function Body(r: Resource): Bytes
    requires WellFormedShape(r)
  {
    match r
    case Identifier(text) => text
    case ReadOnly(fs) => EncodeFields(fs)
    case Other(_, body) => body
  }

  /** A resource whose length fits the header. */
  predicate Encodable(r: Resource) {
    WellFormedShape(r) && |Body(r)| < 0x1_0000
  }

  /** A resource whose length still leaves room for the 16-bit sum. */
  predicate WellFormed(r: Resource) {
    Encodable(r) && |Body(r)| <= 65532
  }

  predicate AllWellFormed(rs: seq<Resource>) {
    forall i :: 0 <= i < |rs| ==> WellFormed(rs[i])
  }

  /** A length in two bytes, the low one first. */
  function LittleEndian(len: nat): (r: Bytes)
    requires len < 0x1_0000
    ensures |r| == 2 && r[0] as int + 256 * r[1] as int == len
  {
    [len % 256, len / 256]
  }

  function Header(tag: Byte, len: nat): Bytes
    requires len < 0x1_0000
  {
    [tag] + LittleEndian(len)
  }

  function EncodeResource(r: Resource): Bytes
    requires Encodable(r)
  {
    Header(Tag(r), |Body(r)|) + Body(r)
  }

  function EncodeAll(rs: seq<Resource>): Bytes
    requires AllWellFormed(rs)
  {
    if rs == [] then [] else EncodeResource(rs[0]) + EncodeAll(rs[1..])
  }

  /** What follows the end tag must not look like a block that runs past the file; zero padding never does. */
  predicate Padding(pad: Bytes) {
    |pad| >= 2 && pad[0] as int + 256 * pad[1] as int + 2 <= |pad|
  }

  function Image(rs: seq<Resource>, pad: Bytes): Bytes
    requires AllWellFormed(rs)
  {
    EncodeAll(rs) + ([END_TAG] + pad)
  }

  // ---------------------------------------------------------------- what an image says

  /** The last value of a keyword, or a fallback when there is none. */
  function LastValue(fs: seq<Field>, keyword: Bytes, fallback: Bytes): Bytes {
    if fs == [] then fallback
    else if fs[|fs| - 1].keyword == keyword then fs[|fs| - 1].data
    else LastValue(fs[..|fs| - 1], keyword, fallback)
  }

  /** All read-only fields, in order. */
  function AllFields(rs: seq<Resource>): seq<Field> {
    if rs == [] then []
    else (if rs[0].ReadOnly? then rs[0].fields else []) + AllFields(rs[1..])
  }

  function LastIdentifier(rs: seq<Resource>, fallback: Bytes): Bytes {
    if rs == [] then fallback
    else LastIdentifier(rs[1..], if rs[0].Identifier? then rs[0].text else fallback)
  }

  /** The product data of a list of resources, on top of what was known before. */
  function Content(rs: seq<Resource>, vpd: Vpd): Vpd {
    var fs := AllFields(rs);
    Vpd(LastIdentifier(rs, vpd.identifier),
        LastValue(fs, KEY_PN, vpd.partNumber),
        LastValue(fs, KEY_SN, vpd.serialNumber),
        LastValue(fs, KEY_V1, vpd.vendor1),
        LastValue(fs, KEY_V2, vpd.vendor2))
  }

  // ---------------------------------------------------------------- scanning undoes encoding

  function CollectAll(rv: map<Bytes, Bytes>, fs: seq<Field>): map<Bytes, Bytes>
    decreases fs
  {
    if fs == [] then rv else CollectAll(Collected(rv, fs[0].keyword, fs[0].data), fs[1..])
  }

  /** `enc` is what the file holds from `pos` on. */
  ghost predicate Holds(file: Bytes, pos: nat, enc: Bytes) {
    pos + |enc| <= |file| && forall i :: 0 <= i < |enc| ==> file[pos + i] == enc[i]
  }

  lemma {:induction false} HoldsParts(file: Bytes, pos: nat, a: Bytes, b: Bytes)
    requires Holds(file, pos, a + b)
    ensures Holds(file, pos, a) && Holds(file, pos + |a|, b)
  {
    forall i | 0 <= i < |a| ensures file[pos + i] == a[i] {
      assert (a + b)[i] == a[i];
    }
    forall i | 0 <= i < |b| ensures file[pos + |a| + i] == b[i] {
      assert (a + b)[|a| + i] == b[i];
    }
  }

  lemma {:induction false} ScanOneField(file: Bytes, pos: nat, end: nat, f: Field, rv: map<Bytes, Bytes>)
    requires WellFormedField(f) && Holds(file, pos, EncodeField(f)) && pos + |EncodeField(f)| <= end <= |file|
    ensures ScanFields(file, pos, end, rv) ==
            ScanFields(file, pos + |EncodeField(f)|, end, Collected(rv, f.keyword, f.data))
  {
    HoldsParts(file, pos, f.keyword + [|f.data|], f.data);
    HoldsParts(file, pos, f.keyword, [|f.data|]);
    assert file[pos + 2] == [|f.data|][0];
    assert file[pos..pos + 2] == f.keyword && file[pos + 3..pos + 3 + |f.data|] == f.data;
  }

  lemma {:induction false} FirstField(file: Bytes, pos: nat, fs: seq<Field>)
    requires fs != [] && WellFormedFields(fs) && Holds(file, pos, EncodeFields(fs))
    ensures var n := |EncodeField(fs[0])|;
            Holds(file, pos, EncodeField(fs[0])) && Holds(file, pos + n, EncodeFields(fs[1..])) &&
            n + |EncodeFields(fs[1..])| == |EncodeFields(fs)|
  {
    HoldsParts(file, pos, EncodeField(fs[0]), EncodeFields(fs[1..]));
  }

  lemma {:induction false} ScanEncodedFields(file: Bytes, pos: nat, end: nat, fs: seq<Field>, rv: map<Bytes, Bytes>)
    requires WellFormedFields(fs) && Holds(file, pos, EncodeFields(fs)) && end == pos + |EncodeFields(fs)|
    ensures ScanFields(file, pos, end, rv) == Some(CollectAll(rv, fs))
    decreases fs
  {
    if fs != [] {
      var mid, next := pos + |EncodeField(fs[0])|, Collected(rv, fs[0].keyword, fs[0].data);
      assert ScanFields(file, mid, end, next) == Some(CollectAll(next, fs[1..])) by {
        FirstField(file, pos, fs);
        ScanEncodedFields(file, mid, end, fs[1..], next);
      }
      assert ScanFields(file, pos, end, rv) == ScanFields(file, mid, end, next) by {
        FirstField(file, pos, fs);
        ScanOneField(file, pos, end, fs[0], rv);
      }
    }
  }

  lemma {:induction false} LastValueCons(f: Field, fs: seq<Field>, keyword: Bytes, fallback: Bytes)
    ensures LastValue([f] + fs, keyword, fallback) ==
            LastValue(fs, keyword, if f.keyword == keyword then f.data else fallback)
    decreases fs
  {
    if fs == [] {
      assert ([f] + fs)[..0] == [];
    } else {
      assert ([f] + fs)[..|fs|] == [f] + fs[..|fs| - 1];
      LastValueCons(f, fs[..|fs| - 1], keyword, fallback);
    }
  }

  lemma {:induction false} LastValueConcat(a: seq<Field>, b: seq<Field>, keyword: Bytes, fallback: Bytes)
    ensures LastValue(a + b, keyword, fallback) == LastValue(b, keyword, LastValue(a, keyword, fallback))
    decreases b
  {
    if b == [] {
      assert a + b == a;
    } else {
      assert (a + b)[..|a + b| - 1] == a + b[..|b| - 1];
      LastValueConcat(a, b[..|b| - 1], keyword, fallback);
    }
  }

  /** The collected map answers for a kept keyword as the last field does. */
  lemma {:induction false} CollectedValue(rv: map<Bytes, Bytes>, fs: seq<Field>, keyword: Bytes, fallback: Bytes)
    requires Kept(keyword)
    ensures var m := CollectAll(rv, fs);
            (if keyword in m then m[keyword] else fallback) ==
            LastValue(fs, keyword, if keyword in rv then rv[keyword] else fallback)
    decreases fs
  {
    if fs != [] {
      CollectedValue(Collected(rv, fs[0].keyword, fs[0].data), fs[1..], keyword, fallback);
      LastValueCons(fs[0], fs[1..], keyword, if keyword in rv then rv[keyword] else fallback);
      assert [fs[0]] + fs[1..] == fs;
    }
  }

  /** What a single resource contributes. */
  lemma {:induction false} ContentOne(r: Resource, vpd: Vpd)
    ensures AllFields([r]) == if r.ReadOnly? then r.fields else []
    ensures LastIdentifier([r], vpd.identifier) == if r.Identifier? then r.text else vpd.identifier
  {
    assert [r][1..] == [];
    assert AllFields([r][1..]) == [];
  }

  lemma {:induction false} AdoptFields(vpd: Vpd, fs: seq<Field>)
    ensures Adopt(vpd, CollectAll(map[], fs)) == Content([ReadOnly(fs)], vpd)
  {
    CollectedValue(map[], fs, KEY_PN, vpd.partNumber);
    CollectedValue(map[], fs, KEY_SN, vpd.serialNumber);
    CollectedValue(map[], fs, KEY_V1, vpd.vendor1);
    CollectedValue(map[], fs, KEY_V2, vpd.vendor2);
    ContentOne(ReadOnly(fs), vpd);
  }

  lemma {:induction false} HeaderRead(file: Bytes, pos: nat, tag: Byte, len: nat)
    requires len < 0x1_0000 && Holds(file, pos, Header(tag, len))
    ensures file[pos] == tag && BlockLength(file, pos) == len
  {
    var header := Header(tag, len);
    assert file[pos + 0] == header[0] && file[pos + 1] == header[1] && file[pos + 2] == header[2];
  }

  lemma {:induction false} HeaderBytes(file: Bytes, pos: nat, r: Resource)
    requires Encodable(r) && Holds(file, pos, EncodeResource(r))
    ensures pos + 3 + |Body(r)| <= |file|
    ensures file[pos] == Tag(r) && BlockLength(file, pos) == |Body(r)| && Holds(file, pos + 3, Body(r))
  {
    HoldsParts(file, pos, Header(Tag(r), |Body(r)|), Body(r));
    HeaderRead(file, pos, Tag(r), |Body(r)|);
  }

  /** A resource that is not read-only. */
  lemma {:induction false} TakenPlain(file: Bytes, pos: nat, r: Resource, vpd: Vpd)
    requires Encodable(r) && !r.ReadOnly?
    requires pos + 3 + |Body(r)| <= |file| && file[pos] == Tag(r) && Holds(file, pos + 3, Body(r))
    ensures Taken(file, pos, |Body(r)|, vpd) == Some(Content([r], vpd))
  {
    ContentOne(r, vpd);
    assert file[pos + 3..pos + 3 + |Body(r)|] == Body(r);
  }

  lemma {:induction false} TakenResource(file: Bytes, pos: nat, r: Resource, vpd: Vpd)
    requires Encodable(r) && pos + 3 + |Body(r)| <= |file| && file[pos] == Tag(r) && Holds(file, pos + 3, Body(r))
    ensures Taken(file, pos, |Body(r)|, vpd) == Some(Content([r], vpd))
  {
    if r.ReadOnly? {
      var ro := CollectAll(map[], r.fields);
      assert ScanFields(file, pos + 3, pos + 3 + |Body(r)|, map[]) == Some(ro) by {
        ScanEncodedFields(file, pos + 3, pos + 3 + |Body(r)|, r.fields, map[]);
      }
      assert Adopt(vpd, ro) == Content([r], vpd) by { AdoptFields(vpd, r.fields); }
    } else {
      TakenPlain(file, pos, r, vpd);
    }
  }

  lemma {:induction false} NextResource(file: Bytes, pos: nat, r: Resource, vpd: Vpd)
    requires WellFormed(r) && Holds(file, pos, EncodeResource(r))
    ensures Scan(file, pos, vpd) == Scan(file, pos + |EncodeResource(r)|, Content([r], vpd))
  {
    HeaderBytes(file, pos, r);
    TakenResource(file, pos, r, vpd);
  }

  lemma {:induction false} ContentCons(r: Resource, rs: seq<Resource>, vpd: Vpd)
    ensures Content([r] + rs, vpd) == Content(rs, Content([r], vpd))
  {
    assert ([r] + rs)[1..] == rs;
    ContentOne(r, vpd);
    var a, b := AllFields([r]), AllFields(rs);
    LastValueConcat(a, b, KEY_PN, vpd.partNumber);
    LastValueConcat(a, b, KEY_SN, vpd.serialNumber);
    LastValueConcat(a, b, KEY_V1, vpd.vendor1);
    LastValueConcat(a, b, KEY_V2, vpd.vendor2);
  }

  lemma {:induction false} FirstResource(file: Bytes, pos: nat, rs: seq<Resource>)
    requires rs != [] && AllWellFormed(rs) && Holds(file, pos, EncodeAll(rs))
    ensures var n := |EncodeResource(rs[0])|;
            Holds(file, pos, EncodeResource(rs[0])) && Holds(file, pos + n, EncodeAll(rs[1..])) &&
            n + |EncodeAll(rs[1..])| == |EncodeAll(rs)|
  {
    HoldsParts(file, pos, EncodeResource(rs[0]), EncodeAll(rs[1..]));
  }

  /** A reader that moves past every well-formed resource it meets, taking over its content. */
  ghost predicate Steps(reader: (nat, Vpd) -> Outcome, file: Bytes) {
    forall pos: nat, r, vpd :: WellFormed(r) && Holds(file, pos, EncodeResource(r)) ==>
      reader(pos, vpd) == reader(pos + |EncodeResource(r)|, Content([r], vpd))
  }

  lemma {:induction false} ReadsAll(reader: (nat, Vpd) -> Outcome, file: Bytes, pos: nat, rs: seq<Resource>, vpd: Vpd)
    requires AllWellFormed(rs) && Holds(file, pos, EncodeAll(rs)) && Steps(reader, file)
    ensures reader(pos, vpd) == reader(pos + |EncodeAll(rs)|, Content(rs, vpd))
    decreases rs
  {
    if rs != [] {
      var next, known := pos + |EncodeResource(rs[0])|, Content([rs[0]], vpd);
      FirstResource(file, pos, rs);
      assert reader(pos, vpd) == reader(next, known);
      assert Content(rs, vpd) == Content(rs[1..], known) by {
        ContentCons(rs[0], rs[1..], vpd);
        assert [rs[0]] + rs[1..] == rs;
      }
      ReadsAll(reader, file, next, rs[1..], known);
    }
  }

  ghost function Scanner(file: Bytes): (nat, Vpd) -> Outcome {
    (pos: nat, vpd) => if pos <= |file| then Scan(file, pos, vpd) else OutOfBounds
  }

  lemma {:induction false} ScannerSteps(file: Bytes)
    ensures Steps(Scanner(file), file)
  {
    forall pos: nat, r, vpd | WellFormed(r) && Holds(file, pos, EncodeResource(r))
      ensures Scanner(file)(pos, vpd) == Scanner(file)(pos + |EncodeResource(r)|, Content([r], vpd))
    {
      NextResource(file, pos, r, vpd);
    }
  }

  lemma {:induction false} ScanEncoded(file: Bytes, pos: nat, rs: seq<Resource>, vpd: Vpd)
    requires AllWellFormed(rs) && Holds(file, pos, EncodeAll(rs))
    ensures Scan(file, pos, vpd) == Scan(file, pos + |EncodeAll(rs)|, Content(rs, vpd))
  {
    var reader, end, known := Scanner(file), pos + |EncodeAll(rs)|, Content(rs, vpd);
    assert reader(pos, vpd) == reader(end, known) by {
      ScannerSteps(file);
      ReadsAll(reader, file, pos, rs, vpd);
    }
  }

  /** The end tag stops the scan, whatever pads it. */
  lemma {:induction false} StopsAtEndTag(file: Bytes, pos: nat, pad: Bytes, vpd: Vpd)
    requires Padding(pad) && Holds(file, pos, [END_TAG] + pad)
    ensures Scan(file, pos, vpd) == Done(vpd)
  {
    HoldsParts(file, pos, [END_TAG], pad);
    assert file[pos + 0] == [END_TAG][0] && file[pos + 1 + 0] == pad[0] && file[pos + 1 + 1] == pad[1];
  }

  /** Scanning a well-formed image ends in bounds and yields the last identifier and the last SN, PN, V1 and V2. */
  lemma {:induction false} ScanUndoesImage(rs: seq<Resource>, pad: Bytes)
    requires AllWellFormed(rs) && Padding(pad)
    ensures Scan(Image(rs, pad), 0, BLANK) == Done(Content(rs, BLANK))
  {
    var file, all, known := Image(rs, pad), EncodeAll(rs), Content(rs, BLANK);
    assert Holds(file, 0, all) && Holds(file, |all|, [END_TAG] + pad) by {
      HoldsParts(file, 0, all, [END_TAG] + pad);
    }
    assert Scan(file, 0, BLANK) == Scan(file, |all|, known) by { ScanEncoded(file, 0, rs, BLANK); }
    StopsAtEndTag(file, |all|, pad, known);
  }

  lemma {:induction false} StuckAt(file: Bytes, pos: nat, r: Resource, vpd: Vpd)
    requires Encodable(r) && |Body(r)| == 65533 && Holds(file, pos, EncodeResource(r))
    ensures Scan(file, pos, vpd) == Diverges
  {
    HeaderBytes(file, pos, r);
    assert Taken(file, pos, |Body(r)|, vpd).Some? by { TakenResource(file, pos, r, vpd); }
  }

  /** A block of 65533 bytes, after any well-formed ones and before anything, is never left: the 16-bit sum is zero. */
  lemma {:induction false} LongBlockDiverges(rs: seq<Resource>, r: Resource, rest: Bytes)
    requires AllWellFormed(rs) && Encodable(r) && |Body(r)| == 65533
    ensures Scan(EncodeAll(rs) + (EncodeResource(r) + rest), 0, BLANK) == Diverges
  {
    var all, long, known := EncodeAll(rs), EncodeResource(r), Content(rs, BLANK);
    var file := all + (long + rest);
    assert Holds(file, 0, all) && Holds(file, |all|, long) by {
      HoldsParts(file, 0, all, long + rest);
      HoldsParts(file, |all|, long, rest);
    }
    assert Scan(file, 0, BLANK) == Scan(file, |all|, known) by { ScanEncoded(file, 0, rs, BLANK); }
    StuckAt(file, |all|, r, known);
  }

  /** The scan stands at a block it takes: in bounds, not the end tag, and with fields in bounds. */
  ghost predicate AtBlock(file: Bytes, pos: nat, vpd: Vpd) {
    && pos + 3 <= |file| && pos + 3 + BlockLength(file, pos) <= |file|
    && file[pos] != END_TAG && Taken(file, pos, BlockLength(file, pos), vpd).Some?
  }

  /** Position p is the start of a block that the scan from `pos` takes. */
  ghost predicate Reaches(file: Bytes, pos: nat, vpd: Vpd, p: nat)
    decreases |file| - pos
  {
    AtBlock(file, pos, vpd) &&
    (p == pos ||
     (var len := BlockLength(file, pos);
      Advance(len) > 0 && Reaches(file, pos + Advance(len), Taken(file, pos, len, vpd).value, p)))
  }

  ghost predicate ReachesLong(file: Bytes, pos: nat, vpd: Vpd) {
    exists p: nat :: Reaches(file, pos, vpd, p) && p + 3 <= |file| && BlockLength(file, p) == 65533
  }

  /** In any file at all the scan fails to end if and only if it takes a block of 65533 bytes. */
  lemma {:induction false} DivergesIff(file: Bytes, pos: nat, vpd: Vpd)
    requires pos <= |file|
    ensures Scan(file, pos, vpd) == Diverges <==> ReachesLong(file, pos, vpd)
    decreases |file| - pos
  {
    if AtBlock(file, pos, vpd) {
      var len := BlockLength(file, pos);
      if Advance(len) == 0 {
        assert Reaches(file, pos, vpd, pos);
      } else {
        var next, v := pos + Advance(len), Taken(file, pos, len, vpd).value;
        DivergesIff(file, next, v);
        if p: nat :| Reaches(file, pos, vpd, p) && p + 3 <= |file| && BlockLength(file, p) == 65533 {
          assert Reaches(file, next, v, p);
        }
        if p: nat :| Reaches(file, next, v, p) && p + 3 <= |file| && BlockLength(file, p) == 65533 {
          assert Reaches(file, pos, vpd, p);
        }
      }
    }
  }

  /** The value of the last field with a keyword. */
  lemma {:induction false} LastValueAt(fs: seq<Field>, k: nat, keyword: Bytes, fallback: Bytes)
    requires k < |fs| && fs[k].keyword == keyword && forall j :: k < j < |fs| ==> fs[j].keyword != keyword
    ensures LastValue(fs, keyword, fallback) == fs[k].data
  {
    if k < |fs| - 1 { LastValueAt(fs[..|fs| - 1], k, keyword, fallback); }
  }

  /** The keywords by their letters, and the tags by their bytes: any card with one field of each is read as it is. */
  lemma {:induction false} CardRead(id: Bytes, sn: Bytes, pn: Bytes, v1: Bytes, v2: Bytes, pad: Bytes)
    requires |id| <= 65532 && |sn| < 256 && |pn| < 256 && |v1| < 256 && |v2| < 256 && Padding(pad)
    ensures var fs := [Field(['S' as int, 'N' as int], sn), Field(['P' as int, 'N' as int], pn),
                       Field(['V' as int, '1' as int], v1), Field(['V' as int, '2' as int], v2)];
            var rs := [Identifier(id), ReadOnly(fs)];
            && WellFormed(rs[0]) && WellFormed(rs[1])
            && EncodeResource(rs[0])[0] == 0x82 && EncodeResource(rs[1])[0] == 0x90
            && Scan(Image(rs, pad), 0, BLANK) == Done(Vpd(id, pn, sn, v1, v2))
  {
    var fs := [Field(['S' as int, 'N' as int], sn), Field(['P' as int, 'N' as int], pn),
               Field(['V' as int, '1' as int], v1), Field(['V' as int, '2' as int], v2)];
    var rs := [Identifier(id), ReadOnly(fs)];
    FieldsLength(fs);
    assert WellFormed(Identifier(id)) && WellFormed(ReadOnly(fs));
    ScanUndoesImage(rs, pad);
    CardContent(id, fs);
    LastValueAt(fs, 0, KEY_SN, []);
    LastValueAt(fs, 1, KEY_PN, []);
    LastValueAt(fs, 2, KEY_V1, []);
    LastValueAt(fs, 3, KEY_V2, []);
  }

  lemma {:induction false} FieldsLength(fs: seq<Field>)
    requires WellFormedFields(fs)
    ensures |EncodeFields(fs)| <= 258 * |fs|
  {
    if fs != [] {
      FieldsLength(fs[1..]);
      assert |EncodeField(fs[0])| <= 258;
    }
  }

  lemma {:induction false} CardContent(id: Bytes, fs: seq<Field>)
    ensures Content([Identifier(id), ReadOnly(fs)], BLANK) ==
            Vpd(id, LastValue(fs, KEY_PN, []), LastValue(fs, KEY_SN, []), LastValue(fs, KEY_V1, []), LastValue(fs, KEY_V2, []))
  {
    ContentOne(ReadOnly(fs), BLANK.(identifier := id));
    var rs := [Identifier(id), ReadOnly(fs)];
    assert rs[1..] == [ReadOnly(fs)];
    assert AllFields(rs) == [] + fs == fs;
    assert LastIdentifier(rs, []) == LastIdentifier([ReadOnly(fs)], id);
  }
}
