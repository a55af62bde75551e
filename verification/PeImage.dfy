/**
 PE images written field by field, PE32 and PE32+, and what both digest walks make of them: the file without its
 CheckSum, its certificate-table entry and its certificate blob.
 */
module PeImage {
  import opened Options
  import opened Bytes
  import opened FileParts
  import opened StableSort
  import opened Authenticode
  import Driver = AuthenticodeDriver
  import Tool = AuthenticodeTool

  // ----- An image -----

  /** An entry of the section table: name and addresses, SizeOfRawData, PointerToRawData, and the rest. */
  datatype Entry = Entry(name: seq<Byte>, size: nat, pointer: nat, flags: seq<Byte>)

  /** The certificate directory: what is before it, the entry, and what follows. */
  datatype Directories =
    | Without(dirs: seq<Byte>)
    | With(first: seq<Byte>, certOff: nat, rest: seq<Byte>)

  datatype Image = Image(dos: seq<Byte>, stub: seq<Byte>, machine: seq<Byte>, times: seq<Byte>, flags: seq<Byte>,
                         plus: bool, sizes: seq<Byte>, checksum: nat, stacks: seq<Byte>, ndirs: nat, dirs: Directories,
                         table: seq<Entry>, pad: seq<Byte>, data: seq<seq<Byte>>, tail: seq<Byte>, blob: seq<Byte>)

  function PrintEntry(e: Entry): seq<Byte> {
    e.name + Le32(e.size) + Le32(e.pointer) + e.flags
  }

  function PrintTable(table: seq<Entry>): seq<seq<Byte>> {
    if table == [] then [] else PrintTable(table[..|table| - 1]) + [PrintEntry(table[|table| - 1])]
  }

  function DirBytes(img: Image): nat {
    match img.dirs
    case Without(dirs) => |dirs|
    case With(first, _, rest) => |first| + 8 + |rest|
  }

  function OptSize(img: Image): nat { 72 + |img.stacks| + DirBytes(img) }

  function SizeOfHeaders(img: Image): nat {
    0x40 + |img.stub| + 24 + OptSize(img) + 40 * |img.table| + |img.pad|
  }

  /** Part i of the file; the three parts the digest leaves out are given. */
  function Part(img: Image, checksum: seq<Byte>, cert: seq<Byte>, blob: seq<Byte>, i: nat): seq<Byte> {
    match i
    case 0 => [0x4d, 0x5a]
    case 1 => img.dos
    case 2 => Le32(0x40 + |img.stub|)
    case 3 => img.stub
    case 4 => [0x50, 0x45, 0, 0]
    case 5 => img.machine
    case 6 => Le16(|img.table|)
    case 7 => img.times
    case 8 => Le16(OptSize(img))
    case 9 => img.flags
    case 10 => Le16(if img.plus then 0x20b else 0x10b)
    case 11 => img.sizes
    case 12 => Le32(SizeOfHeaders(img))
    case 13 => checksum
    case 14 => img.stacks
    case 15 => Le32(img.ndirs)
    case 16 => if img.dirs.With? then img.dirs.first else img.dirs.dirs
    case 17 => cert
    case 18 => if img.dirs.With? then img.dirs.rest else []
    case 19 => Join(PrintTable(img.table))
    case 20 => img.pad
    case 21 => Join(img.data)
    case 22 => img.tail
    case _ => blob
  }

  function Parts(img: Image, checksum: seq<Byte>, cert: seq<Byte>, blob: seq<Byte>): (p: seq<seq<Byte>>)
    ensures |p| == 24 && forall i :: 0 <= i < 24 ==> p[i] == Part(img, checksum, cert, blob, i)
  {
    seq(24, i requires 0 <= i => Part(img, checksum, cert, blob, i))
  }

  function CertEntry(img: Image): seq<Byte> {
    if img.dirs.With? then Le32(img.dirs.certOff) + Le32(|img.blob|) else []
  }

  function Written(img: Image): (p: seq<seq<Byte>>)
    ensures |p| == 24
  {
    Parts(img, Le32(img.checksum), CertEntry(img), img.blob)
  }

  /** The file. */
  function Print(img: Image): seq<Byte> { Join(Written(img)) }

  /** The file without CheckSum, certificate entry and blob. */
  function Signed(img: Image): seq<Byte> { Join(Parts(img, [], [], [])) }

  /** Where the data of the sections is, one after the other behind the headers. */
  function Placed(at: nat, data: seq<seq<Byte>>): (s: seq<Section>)
    ensures |s| == |data|
  {
    if data == [] then []
    else
      var n := |data| - 1;
      Placed(at, data[..n]) + [Section(at + |Join(data[..n])|, |data[n]|)]
  }

  function Listed(table: seq<Entry>): (s: seq<Section>)
    ensures |s| == |table| && forall i :: 0 <= i < |table| ==> s[i] == Section(table[i].pointer, table[i].size)
  {
    seq(|table|, i requires 0 <= i < |table| => Section(table[i].pointer, table[i].size))
  }

  /** The fields have their sizes. */
  ghost predicate FieldsFit(img: Image) {
    && |img.dos| == 58 && |img.machine| == 2 && |img.times| == 12 && |img.flags| == 2 && |img.sizes| == 58
    && |img.stacks| == (if img.plus then 40 else 24)
    && OptSize(img) < 0x1_0000 && SizeOfHeaders(img) < 0x1_0000_0000 && img.checksum < 0x1_0000_0000
    && img.ndirs < 0x1_0000_0000 && |img.table| <= 96 && EntriesFit(img.table)
  }

  ghost predicate EntriesFit(table: seq<Entry>) {
    forall i :: 0 <= i < |table| ==>
      |table[i].name| == 16 && |table[i].flags| == 16 && table[i].size < 0x1_0000_0000 && table[i].pointer < 0x1_0000_0000
  }

  /** There is a certificate entry exactly if there are five directories; without one there is no blob. */
  ghost predicate DirsFit(img: Image) {
    match img.dirs
    case Without(dirs) => (img.ndirs <= 4 || |dirs| < 40) && img.blob == []
    case With(first, certOff, rest) =>
      && img.ndirs > 4 && |first| == 32 && certOff < 0x1_0000_0000 && |img.blob| < 0x1_0000_0000
      && (img.blob != [] ==> certOff + |img.blob| <= |Print(img)|)
  }

  /** The table lists, in any order and among empty sections, the data behind the headers. */
  ghost predicate TableFits(img: Image) {
    && (forall i :: 0 <= i < |img.data| ==> img.data[i] != [])
    && StableSortOf(NonEmpty(Listed(img.table)), Placed(SizeOfHeaders(img), img.data))
  }

  // ----- Where everything is -----

  lemma FrontIs(img: Image)
    ensures var p := Written(img);
            && p[0] == [0x4d, 0x5a] && p[1] == img.dos && p[2] == Le32(0x40 + |img.stub|) && p[3] == img.stub
            && p[4] == [0x50, 0x45, 0, 0] && p[5] == img.machine && p[6] == Le16(|img.table|) && p[7] == img.times
            && p[8] == Le16(OptSize(img)) && p[9] == img.flags && p[10] == Le16(if img.plus then 0x20b else 0x10b)
            && p[11] == img.sizes && p[12] == Le32(SizeOfHeaders(img))
  {
    hide Join, PrintTable, Le16, Le32;
  }

  lemma BackIs(img: Image)
    ensures var p := Written(img);
            && p[13] == Le32(img.checksum) && p[14] == img.stacks && p[15] == Le32(img.ndirs)
            && p[16] == (if img.dirs.With? then img.dirs.first else img.dirs.dirs) && p[17] == CertEntry(img)
            && p[18] == (if img.dirs.With? then img.dirs.rest else [])
            && p[19] == Join(PrintTable(img.table)) && p[20] == img.pad && p[21] == Join(img.data)
            && p[22] == img.tail && p[23] == img.blob
  {
    hide Join, PrintTable, Le16, Le32;
  }

  /** Up to the CheckSum the parts have fixed places. */
  lemma FrontPlaces(img: Image)
    requires FieldsFit(img)
    ensures var p, pe := Written(img), 0x40 + |img.stub|;
            && Off(p, 0) == 0 && Off(p, 2) == 0x3c && Off(p, 4) == pe && Off(p, 6) == pe + 6 && Off(p, 8) == pe + 20
            && Off(p, 10) == pe + 24 && Off(p, 12) == pe + 84 && Off(p, 13) == pe + 88
  {
    var p := Written(img);
    FrontIs(img);
    hide Off, Join, Le16, Le32, Written, EntriesFit;
    OffNone(p);
    OffNext(p, 0);
    OffNext(p, 1);
    OffNext(p, 2);
    OffNext(p, 3);
    OffNext(p, 4);
    OffNext(p, 5);
    OffNext(p, 6);
    OffNext(p, 7);
    OffNext(p, 8);
    OffNext(p, 9);
    OffNext(p, 10);
    OffNext(p, 11);
    OffNext(p, 12);
  }

  /** The sizes of the parts from the CheckSum on. */
  lemma BackSizes(img: Image)
    requires FieldsFit(img)
    ensures var p := Written(img);
            && |p[13]| == 4 && |p[14]| == |img.stacks| && |p[15]| == 4
            && |p[16]| + |p[17]| + |p[18]| == DirBytes(img) && |p[17]| == (if img.dirs.With? then 8 else 0)
            && (img.dirs.With? ==> |p[16]| == |img.dirs.first|)
            && |p[19]| == 40 * |img.table| && |p[20]| == |img.pad| && |p[21]| == |Join(img.data)| && |p[23]| == |img.blob|
  {
    TableSize(img.table);
    BackIs(img);
    hide Join, Le32, Le16, PrintTable, EntriesFit, Written;
  }

  /** From the CheckSum to the end of the directories. */
  lemma DirPlaces(img: Image)
    requires FieldsFit(img)
    ensures var p, opt := Written(img), 0x40 + |img.stub| + 24;
            && Off(p, 13) == opt + 64 && Off(p, 14) == opt + 68 && Off(p, 15) == opt + 68 + |img.stacks|
            && Off(p, 16) == opt + 72 + |img.stacks| <= Off(p, 17) && Off(p, 18) <= Off(p, 19) == opt + OptSize(img)
            && (img.dirs.With? ==> Off(p, 17) == opt + 72 + |img.stacks| + |img.dirs.first| && Off(p, 18) == Off(p, 17) + 8)
            && (img.dirs.Without? ==> Off(p, 18) == Off(p, 17))
  {
    var p := Written(img);
    FrontPlaces(img);
    BackSizes(img);
    hide Off, Join, Le16, Le32, Written, FieldsFit;
    OffNext(p, 13);
    OffNext(p, 14);
    OffNext(p, 15);
    OffNext(p, 16);
    OffNext(p, 17);
    OffNext(p, 18);
  }

  /** From the section table to the end of the file. */
  lemma DataPlaces(img: Image)
    requires FieldsFit(img)
    ensures var p, n := Written(img), |Print(img)|;
            && Off(p, 19) == 0x40 + |img.stub| + 24 + OptSize(img)
            && Off(p, 21) == SizeOfHeaders(img) && Off(p, 22) == SizeOfHeaders(img) + |Join(img.data)|
            && Off(p, 22) <= Off(p, 23) == n - |img.blob|
  {
    var p := Written(img);
    DirPlaces(img);
    BackSizes(img);
    hide Off, Join, Le16, Le32, Written, FieldsFit, OptSize;
    OffNone(p);
    OffNext(p, 19);
    OffNext(p, 20);
    OffNext(p, 21);
    OffNext(p, 22);
    OffNext(p, 23);
  }

  lemma {:induction false} TableSize(table: seq<Entry>)
    requires EntriesFit(table)
    ensures |Join(PrintTable(table))| == 40 * |table| && |PrintTable(table)| == |table|
    ensures forall i :: 0 <= i < |table| ==> PrintTable(table)[i] == PrintEntry(table[i])
  {
    if table != [] {
      TableSize(table[..|table| - 1]);
    }
  }

  // ----- What the loads find -----

  /** The fields of the headers are where they were written. */
  lemma DosFields(img: Image)
    requires FieldsFit(img)
    ensures var f, pe := Print(img), 0x40 + |img.stub|;
            && pe + 4 <= |f|
            && f[0..2] == [0x4d, 0x5a] && f[0x3c..0x40] == Le32(pe) && f[pe..pe + 4] == [0x50, 0x45, 0, 0]
  {
    FrontPlaces(img);
    FrontIs(img);
    hide Off, Join, Le16, Le32, Written, FieldsFit;
    FieldAt(Written(img), 0, 0);
    FieldAt(Written(img), 2, 0x3c);
    FieldAt(Written(img), 4, 0x40 + |img.stub|);
  }

  lemma FileFields(img: Image)
    requires FieldsFit(img)
    ensures var f, pe := Print(img), 0x40 + |img.stub|;
            && pe + 26 <= |f|
            && f[pe + 6..pe + 8] == Le16(|img.table|) && f[pe + 20..pe + 22] == Le16(OptSize(img))
            && f[pe + 24..pe + 26] == Le16(if img.plus then 0x20b else 0x10b)
  {
    FrontPlaces(img);
    FrontIs(img);
    hide Off, Join, Le16, Le32, Written, FieldsFit;
    FieldAt(Written(img), 6, 0x40 + |img.stub| + 6);
    FieldAt(Written(img), 8, 0x40 + |img.stub| + 20);
    FieldAt(Written(img), 10, 0x40 + |img.stub| + 24);
  }

  lemma OptionalFields(img: Image)
    requires FieldsFit(img)
    ensures var f, pe := Print(img), 0x40 + |img.stub|;
            && pe + 96 + |img.stacks| <= |f| && f[pe + 84..pe + 88] == Le32(SizeOfHeaders(img))
            && f[pe + 92 + |img.stacks|..pe + 96 + |img.stacks|] == Le32(img.ndirs)
  {
    hide Off, Join, Le16, Le32, Written, FieldsFit, SizeOfHeaders, OptSize, PrintTable;
    FrontPlaces(img);
    DirPlaces(img);
    FrontIs(img);
    BackIs(img);
    FieldAt(Written(img), 12, 0x40 + |img.stub| + 84);
    FieldAt(Written(img), 15, 0x40 + |img.stub| + 92 + |img.stacks|);
  }

  /** The headers of a file with these fields. */
  lemma HeadersFrom(f: seq<Byte>, pe: nat, nsec: nat, optSize: nat)
    requires 0x40 <= pe < 0x1_0000_0000 && nsec <= 96 && 96 <= optSize < 0x1_0000 && pe + 24 + optSize <= |f|
    requires f[0..2] == [0x4d, 0x5a] && f[0x3c..0x40] == Le32(pe) && f[pe..pe + 4] == [0x50, 0x45, 0, 0]
    requires f[pe + 6..pe + 8] == Le16(nsec) && f[pe + 20..pe + 22] == Le16(optSize)
    ensures Headers(f) == Some((pe + 24, optSize, nsec))
  {
    hide Le16, Le32, Rd16, Rd32;
    RdLe32(f, 0x3c, pe);
    RdLe16(f, pe + 6, nsec);
    RdLe16(f, pe + 20, optSize);
    assert f[0..2] == f[..2];
  }

  /** The layout both walks start from. */
  function ImageLayout(img: Image): Layout {
    var opt := 0x40 + |img.stub| + 24;
    var entry := opt + (if img.plus then 112 else 96) + 32;
    Layout(opt + 64, SizeOfHeaders(img), |img.table|, opt + OptSize(img),
           if img.dirs.With? then Some(entry) else None,
           if img.dirs.With? then img.dirs.certOff else 0, if img.dirs.With? then |img.blob| else 0)
  }

  lemma HeadersFound(img: Image)
    requires FieldsFit(img)
    ensures SizeOfHeaders(img) <= |Print(img)|
    ensures Headers(Print(img)) == Some((0x40 + |img.stub| + 24, OptSize(img), |img.table|))
  {
    DosFields(img);
    FileFields(img);
    DataPlaces(img);
    hide Off, Join, Headers, Le16, Le32, Print, Written, EntriesFit;
    HeadersFrom(Print(img), 0x40 + |img.stub|, |img.table|, OptSize(img));
  }

  lemma LayoutFound(img: Image)
    requires FieldsFit(img) && DirsFit(img)
    ensures ParseLayout(Print(img)) == Some(ImageLayout(img))
  {
    hide Off, Join, Headers, Le16, Le32, Rd16, Rd32, Print, Written, EntriesFit, ParseLayout;
    var f, opt := Print(img), 0x40 + |img.stub| + 24;
    var dd := opt + if img.plus then 112 else 96;
    HeadersFound(img);
    FileFields(img);
    OptionalFields(img);
    RdLe16(f, opt, if img.plus then 0x20b else 0x10b);
    RdLe32(f, opt + 60, SizeOfHeaders(img));
    RdLe32(f, dd - 4, img.ndirs);
    if img.dirs.With? {
      CertPlace(img);
      CertFound(img, dd + 32);
    }
    LayoutFrom(f, ImageLayout(img), opt, OptSize(img), img.plus);
  }

  /** The layout of a file with these fields. */
  lemma LayoutFrom(f: seq<Byte>, lay: Layout, opt: nat, optSize: nat, plus: bool)
    requires Headers(f) == Some((opt, optSize, lay.nsec)) && opt + optSize <= lay.headers <= |f|
    requires lay.checksum == opt + 64 && lay.sectab == opt + optSize && lay.sectab + 40 * lay.nsec <= |f|
    requires (if plus then 112 else 96) <= optSize && Rd16(f, opt) == (if plus then 0x20b else 0x10b)
    requires Rd32(f, opt + 60) == lay.headers
    requires var dd := opt + if plus then 112 else 96;
             match lay.certEntry
             case None => (Rd32(f, dd - 4) <= 4 || opt + optSize < dd + 40) && lay.certOff == lay.certSize == 0
             case Some(e) =>
               && Rd32(f, dd - 4) > 4 && dd + 40 <= opt + optSize && e == dd + 32
               && Rd32(f, e) == lay.certOff && Rd32(f, e + 4) == lay.certSize
    ensures ParseLayout(f) == Some(lay)
  {
    hide Rd16, Rd32, Headers;
  }

  lemma CertPlace(img: Image)
    requires FieldsFit(img) && img.dirs.With? && |img.dirs.first| == 32
    ensures Off(Written(img), 17) == 0x40 + |img.stub| + 24 + (if img.plus then 112 else 96) + 32
  {
    DirPlaces(img);
    hide Off, Written, EntriesFit;
  }

  lemma CertFound(img: Image, at: nat)
    requires img.dirs.With? && img.dirs.certOff < 0x1_0000_0000 && |img.blob| < 0x1_0000_0000 && Off(Written(img), 17) == at
    ensures at + 8 <= |Print(img)|
    ensures Rd32(Print(img), at) == img.dirs.certOff && Rd32(Print(img), at + 4) == |img.blob|
  {
    var p, f, a, b := Written(img), Print(img), Le32(img.dirs.certOff), Le32(|img.blob|);
    BackIs(img);
    hide Off, Join, Le16, Le32, Rd32, Written;
    FieldAt(p, 17, at);
    assert f[at..at + 4] == f[at..at + 8][..4] == a;
    assert f[at + 4..at + 8] == f[at..at + 8][4..] == b;
    RdLe32(f, at, img.dirs.certOff);
    RdLe32(f, at + 4, |img.blob|);
  }

  // ----- The section table -----

  lemma EntryFound(img: Image, i: nat)
    requires FieldsFit(img) && DirsFit(img) && i < |img.table|
    ensures var lay := ImageLayout(img);
            && lay.sectab + 40 * lay.nsec <= |Print(img)|
            && SectionAt(Print(img), lay, i) == Section(img.table[i].pointer, img.table[i].size)
  {
    hide Join, Le16, Le32, PrintTable, Rd32, Print, OptSize, DirsFit, SizeOfHeaders;
    TableFound(img);
    EntryIn(img.table, i);
    EntryRead(Print(img), ImageLayout(img).sectab, Join(PrintTable(img.table)), img.table[i], 40 * i);
  }

  lemma EntriesOk(img: Image)
    requires FieldsFit(img)
    ensures EntriesFit(img.table)
  {
  }

  lemma TableFound(img: Image)
    requires FieldsFit(img) && DirsFit(img)
    ensures var f, at, all := Print(img), ImageLayout(img).sectab, Join(PrintTable(img.table));
            |all| == 40 * |img.table| && at + |all| <= |f| && f[at..at + |all|] == all
  {
    hide Off, Join, Le16, Le32, PrintTable, Written, FieldsFit, DirsFit, OptSize, SizeOfHeaders;
    DataPlaces(img);
    EntriesOk(img);
    TableSize(img.table);
    BackIs(img);
    FieldAt(Written(img), 19, ImageLayout(img).sectab);
  }

  lemma EntryIn(table: seq<Entry>, i: nat)
    requires EntriesFit(table) && i < |table|
    ensures var all := Join(PrintTable(table)); 40 * i + 40 <= |all| && all[40 * i..40 * i + 40] == PrintEntry(table[i])
  {
    TableSize(table);
    TableOff(table, i);
    hide Off, Join, PrintTable;
    FieldAt(PrintTable(table), i, 40 * i);
  }

  lemma EntryRead(f: seq<Byte>, at: nat, all: seq<Byte>, e: Entry, o: nat)
    requires at + |all| <= |f| && f[at..at + |all|] == all && o + 40 <= |all| && all[o..o + 40] == PrintEntry(e)
    requires |e.name| == 16 && |e.flags| == 16 && e.size < 0x1_0000_0000 && e.pointer < 0x1_0000_0000
    ensures Rd32(f, at + o + 16) == e.size && Rd32(f, at + o + 20) == e.pointer
  {
    EntryBytes(all, e, o);
    hide Le32, Rd32;
    SliceIn(f, at, all, o + 16, o + 20);
    SliceIn(f, at, all, o + 20, o + 24);
    RdLe32(f, at + o + 16, e.size);
    RdLe32(f, at + o + 20, e.pointer);
  }

  lemma {:induction false} TableOff(table: seq<Entry>, i: nat)
    requires i <= |table| == |PrintTable(table)|
    requires EntriesFit(table) && forall k :: 0 <= k < |table| ==> PrintTable(table)[k] == PrintEntry(table[k])
    ensures Off(PrintTable(table), i) == 40 * i
  {
    hide Off;
    if i == 0 {
      OffNone(PrintTable(table));
    } else {
      TableOff(table, i - 1);
      OffNext(PrintTable(table), i - 1);
    }
  }

  lemma EntryBytes(s: seq<Byte>, e: Entry, o: nat)
    requires |e.name| == 16 && |e.flags| == 16 && o + 40 <= |s| && s[o..o + 40] == PrintEntry(e)
    ensures s[o + 16..o + 20] == Le32(e.size) && s[o + 20..o + 24] == Le32(e.pointer)
  {
    hide Le32;
    var t := s[o..o + 40];
    assert t[16..20] == Le32(e.size) && t[20..24] == Le32(e.pointer);
    assert forall k :: 0 <= k < 4 ==> s[o + 16..o + 20][k] == t[16..20][k] && s[o + 20..o + 24][k] == t[20..24][k];
  }

  /** Both walks see the sections of the table, offset and size where the format has them. */
  lemma SectionsFound(img: Image)
    requires FieldsFit(img) && DirsFit(img) && TableFits(img)
    ensures var f, lay := Print(img), ImageLayout(img);
            && lay.sectab + 40 * lay.nsec <= |f|
            && Sorted(NonEmpty(Sections(f, lay, lay.nsec))) == Placed(SizeOfHeaders(img), img.data)
  {
    var f, lay := Print(img), ImageLayout(img);
    LayoutFound(img);
    hide Print, StableSortOf, ImageLayout, SectionAt;
    forall i | 0 <= i < lay.nsec
      ensures SectionAt(f, lay, i) == Listed(img.table)[i]
    {
      EntryFound(img, i);
    }
    assert |img.table| == lay.nsec by { assert ImageLayout(img).nsec == |img.table|; }
    assert Sections(f, lay, lay.nsec) == Listed(img.table);
    var s := NonEmpty(Listed(img.table));
    StableUnique(s, Sorted(s), Placed(SizeOfHeaders(img), img.data));
  }

  // ----- The digest -----

  lemma {:induction false} DataFits(f: seq<Byte>, at: nat, data: seq<seq<Byte>>)
    requires at + |Join(data)| <= |f| && f[at..at + |Join(data)|] == Join(data)
    ensures Fits(|f|, at, Placed(at, data)) && Hashed(at, Placed(at, data)) == at + |Join(data)|
    ensures Content(f, SectionSpans(Placed(at, data))) == Join(data)
  {
    if data != [] {
      var n := |data| - 1;
      var front, last := Join(data[..n]), data[n];
      var s, x := Placed(at, data[..n]), Section(at + |front|, |last|);
      assert Join(data) == front + last && Placed(at, data) == s + [x];
      hide Content, Fits, Hashed, SectionSpans, Join, Placed;
      SliceIn(f, at, Join(data), 0, |front|);
      SliceIn(f, at, Join(data), |front|, |Join(data)|);
      assert Join(data)[0..|front|] == front && Join(data)[|front|..|Join(data)|] == last;
      DataFits(f, at, data[..n]);
      Driver.OneMore(|f|, at, s, x);
      Driver.ContentNext(f, SectionSpans(s), Span(x.offset, x.offset + x.size));
    }
  }

  /** The file without the parts that are left out, cut where they were. */
  lemma SignedIs(img: Image)
    ensures var p, f := Written(img), Print(img);
            && Off(p, 13) <= Off(p, 14) <= Off(p, 17) <= Off(p, 18) <= Off(p, 21) <= Off(p, 22) <= Off(p, 23) <= |f|
            && f[Off(p, 21)..Off(p, 22)] == Join(img.data)
            && Signed(img) == f[0..Off(p, 13)] + f[Off(p, 14)..Off(p, 17)] + f[Off(p, 18)..Off(p, 21)] + Join(img.data) +
                              f[Off(p, 22)..Off(p, 23)]
  {
    var p, q := Written(img), Parts(img, [], [], []);
    BackIs(img);
    SameParts(img);
    hide Written;
    Cuts(p);
    hide Join, Off;
    JoinSplit(p[..13], p[14..17], p[18..21], p[21], p[22]);
  }

  /** Only the three parts differ. */
  lemma SameParts(img: Image)
    ensures var p, q := Written(img), Parts(img, [], [], []);
            q == p[..13] + [[]] + p[14..17] + [[]] + p[18..21] + [p[21], p[22]] + [[]]
  {
    hide Part, CertEntry, Le32;
    var p, q := Written(img), Parts(img, [], [], []);
    forall i | 0 <= i < 24
      ensures q[i] == if i == 13 || i == 17 || i == 23 then [] else p[i]
    {
      SamePart(img, i);
    }
  }

  lemma SamePart(img: Image, i: nat)
    requires i < 24
    ensures Part(img, [], [], [], i) ==
            if i == 13 || i == 17 || i == 23 then [] else Part(img, Le32(img.checksum), CertEntry(img), img.blob, i)
  {
    hide Join, PrintTable, Le16, Le32, OptSize, SizeOfHeaders, CertEntry;
  }

  lemma Cuts(p: seq<seq<Byte>>)
    requires |p| == 24
    ensures var f := Join(p);
            && Off(p, 13) <= Off(p, 14) <= Off(p, 17) <= Off(p, 18) <= Off(p, 21) <= Off(p, 22) <= Off(p, 23) <= |f|
            && f[0..Off(p, 13)] == Join(p[..13]) && f[Off(p, 14)..Off(p, 17)] == Join(p[14..17])
            && f[Off(p, 18)..Off(p, 21)] == Join(p[18..21])
            && f[Off(p, 21)..Off(p, 22)] == p[21] && f[Off(p, 22)..Off(p, 23)] == p[22]
  {
    hide Off, Join;
    FrontCut(p, 13);
    Bounds(p, 13, 14);
    PartsAt(p, 14, 17);
    Bounds(p, 17, 18);
    PartsAt(p, 18, 21);
    Cut(p, 21);
    Cut(p, 22);
  }

  lemma FrontCut(p: seq<seq<Byte>>, i: nat)
    requires i <= |p|
    ensures Off(p, i) <= |Join(p)| && Join(p)[0..Off(p, i)] == Join(p[..i])
  {
    OffNone(p);
    hide Off, Join;
    PartsAt(p, 0, i);
    assert p[0..i] == p[..i];
  }

  lemma Bounds(p: seq<seq<Byte>>, i: nat, j: nat)
    requires i <= j <= |p|
    ensures Off(p, i) <= Off(p, j) <= |Join(p)|
  {
    hide Off, Join;
    PartsAt(p, i, j);
  }

  lemma Cut(p: seq<seq<Byte>>, i: nat)
    requires i < |p|
    ensures Off(p, i) <= Off(p, i + 1) <= |Join(p)| && Join(p)[Off(p, i)..Off(p, i + 1)] == p[i]
  {
    hide Off, Join;
    OffNext(p, i);
    FieldAt(p, i, Off(p, i));
  }

  lemma JoinSplit(a: seq<seq<Byte>>, b: seq<seq<Byte>>, c: seq<seq<Byte>>, d: seq<Byte>, e: seq<Byte>)
    ensures Join(a + [[]] + b + [[]] + c + [d, e] + [[]]) == Join(a) + Join(b) + Join(c) + d + e
  {
    hide Join;
    var none: seq<seq<Byte>> := [[]];
    JoinConcat(a + none + b + none + c + [d, e], none);
    JoinConcat(a + none + b + none + c, [d, e]);
    JoinConcat(a + none + b + none, c);
    JoinConcat(a + none + b, none);
    JoinConcat(a + none, b);
    JoinConcat(a, none);
    JoinConcat([d], [e]);
    JoinOne([]);
    JoinOne(d);
    JoinOne(e);
    assert [d, e] == [d] + [e];
  }

  /** The coverage of a file with its section data behind the headers. */
  lemma CoverFrom(f: seq<Byte>, lay: Layout, data: seq<seq<Byte>>, blob: nat)
    requires ParseLayout(f) == Some(lay) && Placed(lay.headers, data) == Sorted(NonEmpty(Sections(f, lay, lay.nsec)))
    requires lay.headers + |Join(data)| + blob <= |f| && f[lay.headers..lay.headers + |Join(data)|] == Join(data)
    requires lay.certSize == blob && (blob > 0 ==> lay.certOff + blob <= |f|)
    ensures Coverage(f).Some?
    ensures Content(f, Coverage(f).value) ==
            Content(f, HeaderSpans(lay)) + Join(data) + f[lay.headers + |Join(data)|..|f| - blob]
  {
    hide ParseLayout, Content, Fits, Hashed, Sections, Sorted, NonEmpty, SectionSpans, HeaderSpans, Coverage, Join;
    var secs := Placed(lay.headers, data);
    DataFits(f, lay.headers, data);
    Driver.CoverageIs(f, lay, secs);
  }

  /** The coverage of an image is the image without CheckSum, certificate entry and blob. */
  lemma ImageCovered(img: Image)
    requires FieldsFit(img) && DirsFit(img) && TableFits(img)
    ensures Coverage(Print(img)).Some? && Content(Print(img), Coverage(Print(img)).value) == Signed(img)
  {
    hide TableFits, FieldsFit, DirsFit, ImageLayout, Print, Signed, Content, HeaderSpans, Coverage, Join, Placed, Sorted,
         NonEmpty, Sections, ParseLayout, SizeOfHeaders;
    LayoutFound(img);
    SectionsFound(img);
    SignedParts(img);
    BlobPlace(img);
    CoverFrom(Print(img), ImageLayout(img), img.data, |img.blob|);
  }

  lemma BlobPlace(img: Image)
    requires FieldsFit(img) && DirsFit(img)
    ensures var lay := ImageLayout(img);
            && lay.headers == SizeOfHeaders(img) && lay.certSize == |img.blob|
            && (|img.blob| > 0 ==> lay.certOff + |img.blob| <= |Print(img)|)
  {
    hide FieldsFit, Print, SizeOfHeaders, OptSize;
  }

  /** What is signed, in terms of the layout. */
  lemma SignedParts(img: Image)
    requires FieldsFit(img) && DirsFit(img)
    ensures var f, lay, body := Print(img), ImageLayout(img), SizeOfHeaders(img) + |Join(img.data)|;
            && lay.headers <= body && body + |img.blob| <= |f| && f[lay.headers..body] == Join(img.data)
            && Signed(img) == Content(f, HeaderSpans(lay)) + Join(img.data) + f[body..|f| - |img.blob|]
  {
    hide FieldsFit, DirsFit, Off, Print, Signed, Written, Content, HeaderSpans, Join, ImageLayout, SizeOfHeaders;
    SignedIs(img);
    HeadParts(img);
    DataPlaces(img);
    BlobPlace(img);
  }

  /** The headers around the CheckSum and the certificate entry. */
  lemma HeadParts(img: Image)
    requires FieldsFit(img) && DirsFit(img)
    ensures var f, lay, p := Print(img), ImageLayout(img), Written(img);
            && Off(p, 13) <= Off(p, 14) <= Off(p, 17) <= Off(p, 18) <= Off(p, 21) <= |f|
            && f[0..Off(p, 13)] + f[Off(p, 14)..Off(p, 17)] + f[Off(p, 18)..Off(p, 21)] == Content(f, HeaderSpans(lay))
  {
    hide Off, Print, Written, EntriesFit, ParseLayout, Content, HeaderSpans;
    LayoutFound(img);
    DirPlaces(img);
    DataPlaces(img);
    if img.dirs.With? {
      HeadWith(Print(img), ImageLayout(img));
    } else {
      HeadWithout(Print(img), ImageLayout(img), Off(Written(img), 17));
    }
  }

  lemma HeadWith(f: seq<Byte>, lay: Layout)
    requires Consistent(lay, |f|) && lay.certEntry.Some?
    ensures f[0..lay.checksum] + f[lay.checksum + 4..lay.certEntry.value] + f[lay.certEntry.value + 8..lay.headers] ==
            Content(f, HeaderSpans(lay))
  {
    hide Content, HeaderSpans;
    Driver.HeaderContent(f, lay);
  }

  lemma HeadWithout(f: seq<Byte>, lay: Layout, e: nat)
    requires Consistent(lay, |f|) && lay.certEntry.None? && lay.checksum + 4 <= e <= lay.headers
    ensures f[0..lay.checksum] + f[lay.checksum + 4..e] + f[e..lay.headers] == Content(f, HeaderSpans(lay))
  {
    hide Content, HeaderSpans;
    Driver.HeaderContent(f, lay);
    Halves(f[0..lay.checksum], f, lay.checksum + 4, e, lay.headers);
  }

  lemma Halves(h: seq<Byte>, f: seq<Byte>, a: nat, b: nat, c: nat)
    requires a <= b <= c <= |f|
    ensures h + f[a..b] + f[b..c] == h + f[a..c]
  {
    assert f[a..b] + f[b..c] == f[a..c];
  }

  /** Driver and tool on an image. */
  method HashImage(img: Image, update: Driver.Update) returns (rc: Driver.Rc, fed: seq<seq<Byte>>, pieces: Option<seq<Span>>)
    requires FieldsFit(img) && DirsFit(img) && TableFits(img) && forall k: nat :: update(k)
    ensures rc.Ok? && Driver.Flat(fed) == Signed(img)
    ensures pieces.Some? && Content(Print(img), pieces.value) == Signed(img)
  {
    ImageCovered(img);
    hide FieldsFit, DirsFit, TableFits, Print, Signed, Content, Coverage, Driver.Flat;
    rc, fed := Driver.PeaAuthenticodeHash(Print(img), update);
    pieces := Tool.AuthenticodePieces(Print(img));
  }
}
