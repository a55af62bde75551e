/** Kernel modules written field by field as ELF files with a .modinfo section, and what the identity reader finds in them. */
module ModuleImage {
  import opened Options
  import opened Bytes
  import opened FileParts
  import opened ModuleId
  import opened Sha256

  /** Text as bytes. */
  function Ascii(s: string): (b: Str)
    ensures |b| == |s| && forall i :: 0 <= i < |s| ==> b[i] as int == s[i] as int % 256
  {
    seq(|s|, i requires 0 <= i < |s| => (s[i] as int % 256) as Byte)
  }

  lemma Keys()
    ensures NAME == Ascii("name") && SRCVERSION == Ascii("srcversion") && VERSION == Ascii("version")
    ensures VERMAGIC == Ascii("vermagic") && MODINFO == Ascii(".modinfo") + [0]
  {
  }

  lemma MarkerIs()
    ensures MARKER == Ascii("~Module signature appended~\n")
  {
  }

  // ----- The .modinfo section -----

  datatype Field = Field(key: Str, value: Str)

  /** key=value and the terminator. */
  function PrintField(f: Field): Str { f.key + [61] + f.value + [0] }

  function PrintFields(fs: seq<Field>): Str {
    if fs == [] then [] else PrintField(fs[0]) + PrintFields(fs[1..])
  }

  ghost predicate FieldFits(f: Field) {
    61 !in f.key && 0 !in f.key && 0 !in f.value
  }

  /** The value of a key: the first that is not empty. */
  function ValueIn(fs: seq<Field>, key: Str): Str {
    if fs == [] then [] else if fs[0].key == key && fs[0].value != [] then fs[0].value else ValueIn(fs[1..], key)
  }

  lemma {:induction false} NulAt(p: Str, rest: Str)
    requires 0 !in p
    ensures Nul(p + [0] + rest) == |p|
  {
    if p == [] {
      assert p + [0] + rest == [0] + rest;
    } else {
      assert p == [p[0]] + p[1..];
      NulAt(p[1..], rest);
      assert (p + [0] + rest)[1..] == p[1..] + [0] + rest;
    }
  }

  lemma FieldsNext(f: Field, rest: Str)
    requires FieldFits(f)
    ensures Fields(PrintField(f) + rest) == [f.key + [61] + f.value] + Fields(rest)
  {
    var p := f.key + [61] + f.value;
    var s := PrintField(f) + rest;
    assert s == p + [0] + rest;
    NulAt(p, rest);
    assert s[..|p|] == p && s[|p| + 1..] == rest;
    hide Nul;
  }

  /** A field has a wanted key exactly if that is its key and it has a value. */
  lemma HasIs(f: Field, key: Str)
    requires FieldFits(f) && 61 !in key
    ensures var s := f.key + [61] + f.value;
            && (Has(s, key) <==> f.key == key && f.value != [])
            && (Has(s, key) ==> ValueOf(s, key) == f.value)
  {
    var s := f.key + [61] + f.value;
    assert s[|f.key|] == 61;
    if Has(s, key) {
      if |key| < |f.key| {
        assert false;
      } else if |key| > |f.key| {
        assert false;
      }
      assert s[..|key|] == f.key;
    }
    if f.key == key {
      assert s[..|key|] == key && s[|key| + 1..] == f.value;
    }
  }

  lemma {:induction false} FirstIs(fs: seq<Field>, key: Str)
    requires 61 !in key && forall i :: 0 <= i < |fs| ==> FieldFits(fs[i])
    ensures First(Fields(PrintFields(fs)), key) == ValueIn(fs, key)
    decreases |fs|
  {
    hide Fields, FieldFits, Has;
    if fs == [] {
      NoFieldsLeft();
    } else {
      var s := fs[0].key + [61] + fs[0].value;
      FieldsNext(fs[0], PrintFields(fs[1..]));
      HasIs(fs[0], key);
      FirstIs(fs[1..], key);
      FirstOf(s, Fields(PrintFields(fs[1..])), key);
    }
  }

  lemma NoFieldsLeft()
    ensures Fields([]) == []
  {
  }

  lemma FirstOf(s: Str, rest: seq<Str>, key: Str)
    ensures First([s] + rest, key) == if Has(s, key) then ValueOf(s, key) else First(rest, key)
  {
    assert ([s] + rest)[1..] == rest;
  }

  /** What a module says about itself. */
  function Declared(fs: seq<Field>): Id {
    Id(ValueIn(fs, Ascii("name")), ValueIn(fs, Ascii("srcversion")), ValueIn(fs, Ascii("version")),
       ValueIn(fs, Ascii("vermagic")), false, [])
  }

  /** The values fit the reader's fields, and the gate would take name and srcversion. */
  ghost predicate DeclaredFits(fs: seq<Field>) {
    var id := Declared(fs);
    && (forall i :: 0 <= i < |fs| ==> FieldFits(fs[i]))
    && 0 < |id.name| < 56 && |id.srcversion| < 32 && |id.version| < 128 && |id.vermagic| < 128
    && (forall c :: c in id.name ==> NameChar(c)) && (forall c :: c in id.srcversion ==> HexChar(c))
  }

  lemma KeysFit()
    ensures 61 !in NAME && 61 !in SRCVERSION && 61 !in VERSION && 61 !in VERMAGIC
  {
  }

  lemma ModinfoRead(fs: seq<Field>)
    requires DeclaredFits(fs)
    ensures Modinfo(PrintFields(fs)) == (Ok, Declared(fs))
  {
    Keys();
    KeysFit();
    hide FieldFits, First, Fields, ValueIn, NameChar, HexChar, PrintFields;
    FirstIs(fs, NAME);
    FirstIs(fs, SRCVERSION);
    FirstIs(fs, VERSION);
    FirstIs(fs, VERMAGIC);
  }

  // ----- The file -----

  /** A section header: name, type, flags and address, offset, size, and the rest. */
  datatype Head = Head(name: nat, kind: nat, flags: Str, off: nat, size: nat, links: Str)

  datatype Module = Module(ident: Str, machine: Str, flags: Str, before: Str, names: Str, info: seq<Field>, between: Str,
                           heads: seq<Head>, strndx: nat, infondx: nat, tail: Str)

  function PrintHead(h: Head): Str {
    Le32(h.name) + Le32(h.kind) + h.flags + Le64(h.off) + Le64(h.size) + h.links
  }

  function PrintHeads(hs: seq<Head>): seq<Str> {
    if hs == [] then [] else PrintHeads(hs[..|hs| - 1]) + [PrintHead(hs[|hs| - 1])]
  }

  function NamesAt(m: Module): nat { 64 + |m.before| }

  function InfoAt(m: Module): nat { NamesAt(m) + |m.names| }

  function HeadsAt(m: Module): nat { InfoAt(m) + |PrintFields(m.info)| + |m.between| }

  /** Part i of the file. */
  function Part(m: Module, i: nat): Str {
    match i
    case 0 => [0x7f, 0x45, 0x4c, 0x46, 2, 1]
    case 1 => m.ident
    case 2 => Le16(1)
    case 3 => m.machine
    case 4 => Le64(HeadsAt(m))
    case 5 => m.flags
    case 6 => Le16(64)
    case 7 => Le16(|m.heads|)
    case 8 => Le16(m.strndx)
    case 9 => m.before
    case 10 => m.names
    case 11 => PrintFields(m.info)
    case 12 => m.between
    case 13 => Join(PrintHeads(m.heads))
    case _ => m.tail
  }

  function Parts(m: Module): (p: seq<Str>)
    ensures |p| == 15 && forall i :: 0 <= i < 15 ==> p[i] == Part(m, i)
  {
    seq(15, i requires 0 <= i => Part(m, i))
  }

  function Print(m: Module): Str { Join(Parts(m)) }

  ghost predicate HeadsFit(hs: seq<Head>) {
    forall i :: 0 <= i < |hs| ==>
      && |hs[i].flags| == 16 && |hs[i].links| == 24
      && hs[i].name < 0x1_0000_0000 && hs[i].kind < 0x1_0000_0000
      && hs[i].off < 0x1_0000_0000_0000_0000 && hs[i].size < 0x1_0000_0000_0000_0000
  }

  /** The name of a header, with its terminator, is .modinfo. */
  predicate CalledModinfo(names: Str, h: Head) {
    h.name + 9 <= |names| && names[h.name..h.name + 9] == Ascii(".modinfo") + [0]
  }

  /** The fields have their sizes; names and .modinfo are where the headers say, and it is the first of that name. */
  ghost predicate ModuleFits(m: Module) {
    && |m.ident| == 10 && |m.machine| == 22 && |m.flags| == 10
    && |Print(m)| < 0x1_0000_0000_0000_0000 && HeadsFit(m.heads) && |m.heads| < 0x1_0000
    && m.strndx < |m.heads| && m.infondx < |m.heads|
    && m.heads[m.strndx].kind == 3 && m.heads[m.strndx].off == NamesAt(m) && m.heads[m.strndx].size == |m.names| > 0
    && m.heads[m.infondx].kind != 8 && m.heads[m.infondx].off == InfoAt(m)
    && m.heads[m.infondx].size == |PrintFields(m.info)|
    && CalledModinfo(m.names, m.heads[m.infondx])
    && forall i :: 0 <= i < m.infondx ==> !CalledModinfo(m.names, m.heads[i])
  }

  // ----- Where everything is -----

  lemma FrontIs(m: Module)
    ensures var p := Parts(m);
            && p[0] == [0x7f, 0x45, 0x4c, 0x46, 2, 1] && p[1] == m.ident && p[2] == Le16(1) && p[3] == m.machine
            && p[4] == Le64(HeadsAt(m)) && p[5] == m.flags && p[6] == Le16(64) && p[7] == Le16(|m.heads|) && p[8] == Le16(m.strndx)
  {
    hide Join, PrintHeads, PrintFields, Le16, Le64;
  }

  lemma BackIs(m: Module)
    ensures var p := Parts(m);
            && p[9] == m.before && p[10] == m.names && p[11] == PrintFields(m.info) && p[12] == m.between
            && p[13] == Join(PrintHeads(m.heads)) && p[14] == m.tail
  {
    hide Join, PrintHeads, PrintFields, Le16, Le64;
  }

  lemma FrontPlaces(m: Module)
    requires ModuleFits(m)
    ensures var p := Parts(m);
            && Off(p, 0) == 0 && Off(p, 2) == 16 && Off(p, 4) == 0x28 && Off(p, 6) == 0x3a && Off(p, 7) == 0x3c && Off(p, 8) == 0x3e
            && Off(p, 9) == 64
  {
    var p := Parts(m);
    FrontIs(m);
    Sizes(m);
    hide Off, Join, Le16, Le64, Parts, ModuleFits;
    OffNone(p);
    OffNext(p, 0);
    OffNext(p, 1);
    OffNext(p, 2);
    OffNext(p, 3);
    OffNext(p, 4);
    OffNext(p, 5);
    OffNext(p, 6);
    OffNext(p, 7);
    OffNext(p, 8);
  }

  lemma Sizes(m: Module)
    requires ModuleFits(m)
    ensures |m.ident| == 10 && |m.machine| == 22 && |m.flags| == 10
  {
  }

  lemma BackPlaces(m: Module)
    requires ModuleFits(m)
    ensures var p := Parts(m);
            && Off(p, 10) == NamesAt(m) && Off(p, 11) == InfoAt(m) && Off(p, 13) == HeadsAt(m)
  {
    var p := Parts(m);
    FrontPlaces(m);
    BackIs(m);
    hide Off, Join, Parts, ModuleFits, PrintFields, PrintHeads;
    OffNext(p, 9);
    OffNext(p, 10);
    OffNext(p, 11);
    OffNext(p, 12);
  }

  /** The file header. */
  lemma HeaderFields(m: Module)
    requires ModuleFits(m)
    ensures var f := Print(m);
            && 64 <= |f| && f[0..6] == [0x7f, 0x45, 0x4c, 0x46, 2, 1] && f[16..18] == Le16(1)
            && f[0x28..0x30] == Le64(HeadsAt(m)) && f[0x3a..0x3c] == Le16(64)
            && f[0x3c..0x3e] == Le16(|m.heads|) && f[0x3e..0x40] == Le16(m.strndx)
  {
    var p := Parts(m);
    FrontPlaces(m);
    FrontIs(m);
    hide Off, Join, Le16, Le64, Parts, ModuleFits;
    FieldAt(p, 0, 0);
    FieldAt(p, 2, 16);
    FieldAt(p, 4, 0x28);
    FieldAt(p, 6, 0x3a);
    FieldAt(p, 7, 0x3c);
    FieldAt(p, 8, 0x3e);
  }

  lemma {:induction false} HeadsSize(hs: seq<Head>)
    requires HeadsFit(hs)
    ensures |Join(PrintHeads(hs))| == 64 * |hs| && |PrintHeads(hs)| == |hs|
    ensures forall i :: 0 <= i < |hs| ==> PrintHeads(hs)[i] == PrintHead(hs[i])
  {
    hide PrintHead;
    if hs != [] {
      HeadsSize(hs[..|hs| - 1]);
      HeadSize(hs[|hs| - 1]);
    }
  }

  lemma {:induction false} HeadOff(hs: seq<Head>, i: nat)
    requires HeadsFit(hs) && i <= |hs| == |PrintHeads(hs)| && forall k :: 0 <= k < |hs| ==> PrintHeads(hs)[k] == PrintHead(hs[k])
    ensures Off(PrintHeads(hs), i) == 64 * i
  {
    hide Off, PrintHeads, PrintHead;
    if i == 0 {
      OffNone(PrintHeads(hs));
    } else {
      HeadOff(hs, i - 1);
      HeadSize(hs[i - 1]);
      OffNext(PrintHeads(hs), i - 1);
    }
  }

  lemma HeadSize(h: Head)
    requires |h.flags| == 16 && |h.links| == 24
    ensures |PrintHead(h)| == 64
  {
    hide Le32, Le64;
  }

  lemma HeadIn(hs: seq<Head>, i: nat)
    requires HeadsFit(hs) && i < |hs|
    ensures var all := Join(PrintHeads(hs)); 64 * i + 64 <= |all| && all[64 * i..64 * i + 64] == PrintHead(hs[i])
  {
    hide Off, Join, PrintHeads, PrintHead;
    HeadsSize(hs);
    HeadOff(hs, i);
    HeadSize(hs[i]);
    FieldAt(PrintHeads(hs), i, 64 * i);
  }

  lemma HeadBytes(s: Str, h: Head, o: nat)
    requires |h.flags| == 16 && |h.links| == 24 && o + 64 <= |s| && s[o..o + 64] == PrintHead(h)
    ensures s[o..o + 4] == Le32(h.name) && s[o + 4..o + 8] == Le32(h.kind)
    ensures s[o + 24..o + 32] == Le64(h.off) && s[o + 32..o + 40] == Le64(h.size)
  {
    hide Le32, Le64;
    var t := PrintHead(h);
    SliceIn(s, o, t, 0, 4);
    SliceIn(s, o, t, 4, 8);
    SliceIn(s, o, t, 24, 32);
    SliceIn(s, o, t, 32, 40);
    assert t[0..4] == Le32(h.name) && t[4..8] == Le32(h.kind) && t[24..32] == Le64(h.off) && t[32..40] == Le64(h.size);
  }

  lemma HeadRead(f: Str, at: nat, all: Str, h: Head, o: nat)
    requires at + |all| <= |f| && f[at..at + |all|] == all && o + 64 <= |all| && all[o..o + 64] == PrintHead(h)
    requires |h.flags| == 16 && |h.links| == 24 && h.name < 0x1_0000_0000 && h.kind < 0x1_0000_0000
    requires h.off < 0x1_0000_0000_0000_0000 && h.size < 0x1_0000_0000_0000_0000
    ensures Rd32(f, at + o) == h.name && Rd32(f, at + o + 4) == h.kind
    ensures Rd64(f, at + o + 24) == h.off && Rd64(f, at + o + 32) == h.size
  {
    hide Le32, Le64, Rd32, Rd64, PrintHead;
    SliceIn(f, at, all, o, o + 64);
    HeadBytes(f, h, at + o);
    RdLe32(f, at + o, h.name);
    RdLe32(f, at + o + 4, h.kind);
    RdLe64(f, at + o + 24, h.off);
    RdLe64(f, at + o + 32, h.size);
  }

  lemma HeadsOk(m: Module)
    requires ModuleFits(m)
    ensures HeadsFit(m.heads)
  {
  }

  lemma TableFound(m: Module)
    requires ModuleFits(m)
    ensures var f, at, all := Print(m), HeadsAt(m), Join(PrintHeads(m.heads));
            |all| == 64 * |m.heads| && at + |all| <= |f| && f[at..at + |all|] == all
  {
    hide Off, Join, PrintHeads, Parts, HeadsAt, ModuleFits;
    BackPlaces(m);
    BackIs(m);
    HeadsOk(m);
    HeadsSize(m.heads);
    FieldAt(Parts(m), 13, HeadsAt(m));
  }

  /** Every section header is read as it was written. */
  lemma SectionRead(m: Module, i: nat)
    requires ModuleFits(m) && i < |m.heads|
    ensures Tabled(Print(m), HeadsAt(m), |m.heads|) && TableEntry(Print(m), HeadsAt(m), |m.heads|, i)
    ensures var h := m.heads[i]; SecAt(Print(m), HeadsAt(m), i) == Sec(h.name, h.kind, h.off, h.size)
  {
    hide Join, PrintHeads, PrintHead, Print, HeadsAt, ModuleFits, Rd32, Rd64;
    TableFound(m);
    HeadsOk(m);
    HeadIn(m.heads, i);
    HeadRead(Print(m), HeadsAt(m), Join(PrintHeads(m.heads)), m.heads[i], 64 * i);
  }

  lemma NamesFound(m: Module)
    requires ModuleFits(m)
    ensures var f, a, b := Print(m), NamesAt(m), InfoAt(m);
            && a + |m.names| == b && b + |PrintFields(m.info)| <= |f|
            && f[a..b] == m.names && f[b..b + |PrintFields(m.info)|] == PrintFields(m.info)
  {
    hide Off, Join, PrintFields, Parts, ModuleFits, NamesAt, HeadsAt;
    BackPlaces(m);
    BackIs(m);
    FieldAt(Parts(m), 10, NamesAt(m));
    FieldAt(Parts(m), 11, InfoAt(m));
  }

  function StrsOf(m: Module): Sec
    requires m.strndx < |m.heads|
  {
    var h := m.heads[m.strndx];
    Sec(h.name, h.kind, h.off, h.size)
  }

  lemma NamedIs(m: Module, i: nat)
    requires ModuleFits(m) && i < |m.heads|
    ensures InFile(StrsOf(m), |Print(m)|)
    ensures var h := m.heads[i];
            NamedModinfo(Print(m), StrsOf(m), Sec(h.name, h.kind, h.off, h.size)) <==> CalledModinfo(m.names, h)
  {
    hide Print, PrintFields, HeadsFit, InfoAt, Ascii;
    NamesFound(m);
    Keys();
    var f, h, a := Print(m), m.heads[i], NamesAt(m);
    if h.name + 9 <= |m.names| {
      SliceIn(f, a, m.names, h.name, h.name + 9);
    }
  }

  lemma {:induction false} FoundIs(m: Module, i: nat)
    requires ModuleFits(m) && i <= m.infondx
    requires Tabled(Print(m), HeadsAt(m), |m.heads|) && InFile(StrsOf(m), |Print(m)|)
    ensures var h := m.heads[m.infondx];
            FindModinfo(Print(m), HeadsAt(m), |m.heads|, StrsOf(m), i) == Some(Sec(h.name, h.kind, h.off, h.size))
    decreases m.infondx - i
  {
    SectionRead(m, i);
    NamedIs(m, i);
    NotBefore(m, i);
    hide Print, HeadsAt, ModuleFits, SecAt, NamedModinfo, CalledModinfo;
    if i < m.infondx {
      FoundIs(m, i + 1);
    }
  }

  lemma NotBefore(m: Module, i: nat)
    requires ModuleFits(m) && i <= m.infondx
    ensures m.infondx < |m.heads| && m.strndx < |m.heads| && (CalledModinfo(m.names, m.heads[i]) <==> i == m.infondx)
  {
    hide Print, HeadsFit, PrintFields, CalledModinfo;
  }

  /** The header checks pass. */
  lemma HeaderRead(m: Module)
    requires ModuleFits(m)
    ensures var f := Print(m);
            && !IsCompressed(f) && |f| >= 64 && f[..4] == [0x7f, 0x45, 0x4c, 0x46] && f[4] == 2 && f[5] == 1 && Rd16(f, 16) == 1
            && Rd64(f, 0x28) == HeadsAt(m) && Rd16(f, 0x3a) == 64 && Rd16(f, 0x3c) == |m.heads| && Rd16(f, 0x3e) == m.strndx
  {
    var f := Print(m);
    HeaderFields(m);
    TableFound(m);
    assert |m.heads| < 0x1_0000 && m.strndx < |m.heads| && HeadsAt(m) < 0x1_0000_0000_0000_0000;
    hide Print, HeadsAt, ModuleFits, Le16, Le64, Rd16, Rd64;
    assert f[..4] == f[0..6][..4] && f[4] == f[0..6][4] && f[5] == f[0..6][5];
    RdLe16(f, 16, 1);
    RdLe64(f, 0x28, HeadsAt(m));
    RdLe16(f, 0x3a, 64);
    RdLe16(f, 0x3c, |m.heads|);
    RdLe16(f, 0x3e, m.strndx);
    assert f[0] == f[..4][0];
  }

  /** The identity read from a module file is the one its .modinfo declares, with the mark and the hash of the file. */
  lemma ModuleRead(m: Module)
    requires ModuleFits(m) && DeclaredFits(m.info)
    ensures Parsed(Print(m)) ==
            (Ok, Declared(m.info).(sigMarker := EndsWith(Print(m), Ascii("~Module signature appended~\n")),
                                   sha256 := Hash(Octets(Print(m)))))
  {
    hide ModuleFits, DeclaredFits, Print, HeadsAt, NamesAt, InfoAt, PrintFields, Declared, IsCompressed, FindModinfo, SecAt,
         Rd16, Rd64, Modinfo, Octets, Hash, Tabled, InFile, Parsed;
    HeaderRead(m);
    NotBefore(m, 0);
    SectionRead(m, m.strndx);
    NamedIs(m, m.strndx);
    FoundIs(m, 0);
    NamesFound(m);
    ModinfoRead(m.info);
    MarkerIs();
    InfoInFile(m);
    var h := m.heads[m.infondx];
    ParsedFrom(Print(m), HeadsAt(m), |m.heads|, m.strndx, Sec(h.name, h.kind, h.off, h.size), Declared(m.info));
  }

  /** The reader on a file with this header and these sections. */
  lemma ParsedFrom(f: Str, shoff: nat, shnum: nat, strndx: nat, s: Sec, id: Id)
    requires !IsCompressed(f) && |f| >= 64 && f[..4] == [0x7f, 0x45, 0x4c, 0x46] && f[4] == 2 && f[5] == 1 && Rd16(f, 16) == 1
    requires Rd64(f, 0x28) == shoff && Rd16(f, 0x3a) == 64 && Rd16(f, 0x3c) == shnum > strndx && Rd16(f, 0x3e) == strndx
    requires Tabled(f, shoff, shnum) && TableEntry(f, shoff, shnum, strndx)
    requires var strs := SecAt(f, shoff, strndx);
             strs.kind == 3 && InFile(strs, |f|) && strs.size > 0 && FindModinfo(f, shoff, shnum, strs, 0) == Some(s)
    requires InFile(s, |f|) && Within(s, |f|) && Modinfo(f[s.off..s.off + s.size]) == (Ok, id)
    ensures Parsed(f) == (Ok, id.(sigMarker := EndsWith(f, MARKER), sha256 := Hash(Octets(f))))
  {
    hide IsCompressed, FindModinfo, SecAt, Rd16, Rd64, Modinfo, Octets, Hash;
  }

  predicate Within(s: Sec, n: nat) { s.off + s.size <= n }

  predicate TableEntry(f: Str, shoff: nat, shnum: nat, i: nat) { shoff + (i + 1) * SHDR <= |f| }

  lemma InfoInFile(m: Module)
    requires ModuleFits(m)
    ensures var h := m.heads[m.infondx];
            && InFile(Sec(h.name, h.kind, h.off, h.size), |Print(m)|)
            && h.off == InfoAt(m) && h.size == |PrintFields(m.info)|
            && Within(Sec(h.name, h.kind, h.off, h.size), |Print(m)|)
            && StrsOf(m).kind == 3 && StrsOf(m).size > 0 && |m.heads| > 0
  {
    NamesFound(m);
    hide Print, HeadsFit, PrintFields, CalledModinfo;
  }

  predicate EndsWith(f: Str, s: Str) {
    |f| >= |s| && f[|f| - |s|..] == s
  }
}
