/** Reading a kernel module's identity from its file, and printing it as a deny-list entry. */
module ModuleId {
  import opened Options
  import opened Bytes
  import opened Sha256
  import opened Hmac

  const NAME_MAX := 56
  const SRCVER_MAX := 32
  const STR_MAX := 128
  const SHDR := 64

  /** Strings of the C program: bytes without the terminator. */
  type Str = seq<Byte>

  datatype Id = Id(name: Str, srcversion: Str, version: Str, vermagic: Str, sigMarker: bool, sha256: seq<bv8>)

  datatype Rc = Ok | Compressed | NotElf | Unsupported | BadElf | NoModinfo | NoName | BadField

  const NAME: Str := [110, 97, 109, 101]
  const SRCVERSION: Str := [115, 114, 99, 118, 101, 114, 115, 105, 111, 110]
  const VERSION: Str := [118, 101, 114, 115, 105, 111, 110]
  const VERMAGIC: Str := [118, 101, 114, 109, 97, 103, 105, 99]
  const MODINFO: Str := [46, 109, 111, 100, 105, 110, 102, 111, 0]
  const MARKER: Str := [126, 77, 111, 100, 117, 108, 101, 32, 115, 105, 103, 110, 97, 116, 117, 114, 101, 32,
                        97, 112, 112, 101, 110, 100, 101, 100, 126, 10]

  predicate Digit(c: Byte) { 48 <= c <= 57 }
  predicate Letter(c: Byte) { 65 <= c <= 90 || 97 <= c <= 122 }
  predicate NameChar(c: Byte) { Digit(c) || Letter(c) || c == 95 || c == 45 || c == 46 }
  predicate HexChar(c: Byte) { Digit(c) || 65 <= c <= 70 || 97 <= c <= 102 }

  // ----- .modinfo: NUL-terminated key=value strings -----

  function Nul(p: Str): (n: nat)
    ensures n <= |p| && (n < |p| ==> p[n] == 0) && forall i :: 0 <= i < n ==> p[i] != 0
  {
    if p == [] || p[0] == 0 then 0 else 1 + Nul(p[1..])
  }

  function Fields(p: Str): seq<Str>
    decreases |p|
  {
    if p == [] then []
    else
      var n := Nul(p);
      [p[..n]] + Fields(if n < |p| then p[n + 1..] else [])
  }

  /** A field with the key and a value. */
  predicate Has(f: Str, key: Str) {
    |f| > |key| + 1 && f[..|key|] == key && f[|key|] == 61
  }

  function ValueOf(f: Str, key: Str): Str
    requires Has(f, key)
  {
    f[|key| + 1..]
  }

  /** The value of a key: its first occurrence wins; empty when there is none. */
  function First(fs: seq<Str>, key: Str): Str {
    if fs == [] then []
    else if Has(fs[0], key) then ValueOf(fs[0], key)
    else First(fs[1..], key)
  }

  function Modinfo(p: Str): (Rc, Id) {
    var fs := Fields(p);
    var id := Id(First(fs, NAME), First(fs, SRCVERSION), First(fs, VERSION), First(fs, VERMAGIC), false, []);
    if |id.name| >= NAME_MAX || |id.srcversion| >= SRCVER_MAX || |id.version| >= STR_MAX || |id.vermagic| >= STR_MAX
    then (BadField, id)
    else if id.name == [] then (NoName, id)
    else if (exists c :: c in id.name && !NameChar(c)) || (exists c :: c in id.srcversion && !HexChar(c)) then (BadField, id)
    else (Ok, id)
  }

  /** One wanted key while the fields are read. */
  datatype Slot = Slot(key: Str, cap: nat, value: Str, seen: bool)

  /** The slot as it is after the fields fs: taken by the first match, which fits. */
  ghost predicate Reads(s: Slot, fs: seq<Str>) {
    && s.value == First(fs, s.key) && (s.seen <==> First(fs, s.key) != []) && |s.value| < s.cap
  }

  lemma {:induction false} FirstNext(fs: seq<Str>, f: Str, key: Str)
    ensures First(fs + [f], key) ==
            if First(fs, key) != [] then First(fs, key) else if Has(f, key) then ValueOf(f, key) else []
    decreases |fs|
  {
    if fs == [] {
      assert (fs + [f])[1..] == [];
    } else {
      assert (fs + [f])[1..] == fs[1..] + [f];
      FirstNext(fs[1..], f, key);
    }
  }

  lemma {:induction false} FirstStays(fs: seq<Str>, more: seq<Str>, key: Str)
    requires First(fs, key) != []
    ensures First(fs + more, key) == First(fs, key)
    decreases |fs|
  {
    if fs != [] && !Has(fs[0], key) {
      FirstStays(fs[1..], more, key);
    }
    assert fs != [] ==> (fs + more)[1..] == fs[1..] + more;
  }

  /** Offers one field to the four wanted keys; false when a value does not fit. */
  method Offer(slots: array<Slot>, f: Str, ghost fs: seq<Str>) returns (ok: bool, ghost bad: nat)
    requires slots.Length == 4 && SlotsOk(slots[..], fs)
    modifies slots
    ensures ok ==> SlotsOk(slots[..], fs + [f])
    ensures !ok ==> bad < 4 && var s := old(slots[..])[bad];
            First(fs + [f], s.key) != [] && |First(fs + [f], s.key)| >= s.cap
    ensures Asked(old(slots[..]))
  {
    hide First, Has;
    bad := 0;
    var i := 0;
    while i < 4
      invariant i <= 4 && Asked(slots[..])
      invariant forall j :: 0 <= j < 4 ==> slots[j].key == old(slots[j].key) && slots[j].cap == old(slots[j].cap)
      invariant forall j :: 0 <= j < i ==> Reads(slots[j], fs + [f])
      invariant forall j :: i <= j < 4 ==> Reads(slots[j], fs)
    {
      var s := slots[i];
      FirstNext(fs, f, s.key);
      if !s.seen && Has(f, s.key) {
        ValueFilled(f, s.key);
        if |ValueOf(f, s.key)| >= s.cap {
          bad := i;
          return false, bad;
        }
        slots[i] := s.(value := ValueOf(f, s.key), seen := true);
      }
      i := i + 1;
    }
    ok := true;
  }

  lemma ValueFilled(f: Str, key: Str)
    requires Has(f, key)
    ensures ValueOf(f, key) != []
  {
  }

  lemma LastField(q: Str)
    requires q != [] && Nul(q) == |q|
    ensures Fields(q) == [q] + Fields([])
  {
    hide Nul;
    assert q[..|q|] == q;
  }

  lemma FieldBefore(q: Str)
    requires q != [] && Nul(q) < |q|
    ensures Fields(q) == [q[..Nul(q)]] + Fields(q[Nul(q) + 1..])
  {
    hide Nul;
  }

  lemma FieldsAt(p: Str, o: nat)
    requires o < |p|
    ensures var n := Nul(p[o..]); o + n <= |p| && Fields(p[o..]) == [p[o..o + n]] + Fields(p[Min(o + n + 1, |p|)..])
  {
    hide Nul, Fields;
    var q, n := p[o..], Nul(p[o..]);
    assert q[..n] == p[o..o + n];
    if n < |q| {
      FieldBefore(q);
      assert q[n + 1..] == p[o + n + 1..];
    } else {
      LastField(q);
      assert q[..n] == q && Min(o + n + 1, |p|) == |p|;
      assert p[|p|..] == [];
    }
  }

  function Min(a: nat, b: nat): nat { if a < b then a else b }

  ghost predicate Asked(s: seq<Slot>) {
    && |s| == 4 && s[0].key == NAME && s[0].cap == NAME_MAX && s[1].key == SRCVERSION && s[1].cap == SRCVER_MAX
    && s[2].key == VERSION && s[2].cap == STR_MAX && s[3].key == VERMAGIC && s[3].cap == STR_MAX
  }

  ghost predicate SlotsOk(s: seq<Slot>, fs: seq<Str>) {
    Asked(s) && forall i :: 0 <= i < 4 ==> Reads(s[i], fs)
  }

  function Unread(): (s: seq<Slot>)
    ensures SlotsOk(s, [])
  {
    [Slot(NAME, NAME_MAX, [], false), Slot(SRCVERSION, SRCVER_MAX, [], false),
     Slot(VERSION, STR_MAX, [], false), Slot(VERMAGIC, STR_MAX, [], false)]
  }

  /** A value too long for its slot fails the whole section. */
  lemma TooLong(p: Str, fs: seq<Str>, more: seq<Str>, s: seq<Slot>, bad: nat)
    requires Fields(p) == fs + more && Asked(s) && bad < 4
    requires First(fs, s[bad].key) != [] && |First(fs, s[bad].key)| >= s[bad].cap
    ensures Modinfo(p).0 == BadField
  {
    hide First, Fields;
    FirstStays(fs, more, s[bad].key);
  }

  lemma AllRead(p: Str, s: seq<Slot>)
    requires SlotsOk(s, Fields(p))
    ensures var id := Id(s[0].value, s[1].value, s[2].value, s[3].value, false, []);
            Modinfo(p) ==
            if id.name == [] then (NoName, id)
            else if (exists c :: c in id.name && !NameChar(c)) || (exists c :: c in id.srcversion && !HexChar(c)) then (BadField, id)
            else (Ok, id)
  {
    hide First, Fields, NameChar, HexChar;
    assert Reads(s[0], Fields(p)) && Reads(s[1], Fields(p)) && Reads(s[2], Fields(p)) && Reads(s[3], Fields(p));
  }

  /** Reads the fields; the first occurrence of each wanted key wins. */
  method ParseModinfo(p: Str) returns (rc: Rc, id: Id)
    ensures rc == Modinfo(p).0 && (rc.Ok? ==> id == Modinfo(p).1)
  {
    hide First, Fields, Nul, NameChar, HexChar, Modinfo, SlotsOk;
    var slots := new Slot[4](i requires 0 <= i < 4 => Unread()[i]);
    assert slots[..] == Unread();
    id := Id([], [], [], [], false, []);
    ghost var fs: seq<Str> := [];
    var o := 0;
    assert p[0..] == p && [] + Fields(p) == Fields(p);
    while o < |p|
      invariant o <= |p| && slots.Length == 4 && Fields(p) == fs + Fields(p[o..]) && SlotsOk(slots[..], fs)
    {
      var n := Nul(p[o..]);
      FieldsAt(p, o);
      var next := Min(o + n + 1, |p|);
      Associate(fs, p[o..o + n], Fields(p[next..]));
      ghost var before := slots[..];
      var ok;
      ghost var bad;
      ok, bad := Offer(slots, p[o..o + n], fs);
      if !ok {
        TooLong(p, fs + [p[o..o + n]], Fields(p[next..]), before, bad);
        return BadField, id;
      }
      fs := fs + [p[o..o + n]];
      o := next;
    }
    NoFields(p, o, fs);
    AllRead(p, slots[..]);
    AskedNow(slots[..], fs);
    id := Id(slots[0].value, slots[1].value, slots[2].value, slots[3].value, false, []);
    if id.name == [] {
      return NoName, id;
    }
    if (exists c :: c in id.name && !NameChar(c)) || (exists c :: c in id.srcversion && !HexChar(c)) {
      return BadField, id;
    }
    return Ok, id;
  }

  lemma AskedNow(s: seq<Slot>, fs: seq<Str>)
    requires SlotsOk(s, fs)
    ensures Asked(s)
  {
  }

  lemma NoFields(p: Str, o: nat, fs: seq<Str>)
    requires o == |p| && Fields(p) == fs + Fields(p[o..])
    ensures Fields(p) == fs
  {
    assert p[o..] == [];
    assert fs + [] == fs;
  }

  lemma Associate(a: seq<Str>, f: Str, b: seq<Str>)
    ensures a + ([f] + b) == a + [f] + b
  {
  }

  // ----- The ELF file -----

  datatype Sec = Sec(name: nat, kind: nat, off: nat, size: nat)

  function SecAt(img: Str, shoff: nat, i: nat): Sec
    requires shoff + (i + 1) * SHDR <= |img|
  {
    var h := shoff + i * SHDR;
    Sec(Rd32(img, h), Rd32(img, h + 4), Rd64(img, h + 24), Rd64(img, h + 32))
  }

  /** SHT_NOBITS sections have no bytes, so they never qualify. */
  predicate InFile(s: Sec, n: nat) {
    s.kind != 8 && s.off + s.size <= n
  }

  predicate NamedModinfo(img: Str, strs: Sec, s: Sec)
    requires InFile(strs, |img|)
  {
    && s.name < strs.size && strs.size - s.name >= |MODINFO|
    && img[strs.off + s.name..strs.off + s.name + |MODINFO|] == MODINFO
  }

  predicate Tabled(img: Str, shoff: nat, shnum: nat) {
    shoff + shnum * SHDR <= |img|
  }

  /** The first section called .modinfo, from number i on. */
  function FindModinfo(img: Str, shoff: nat, shnum: nat, strs: Sec, i: nat): Option<Sec>
    requires Tabled(img, shoff, shnum) && InFile(strs, |img|) && i <= shnum
    decreases shnum - i
  {
    if i == shnum then None
    else
      var s := SecAt(img, shoff, i);
      if NamedModinfo(img, strs, s) then Some(s) else FindModinfo(img, shoff, shnum, strs, i + 1)
  }

  /** The file as the hash sees it. */
  function Octets(s: Str): seq<bv8> {
    seq(|s|, i requires 0 <= i < |s| => s[i] as bv8)
  }

  predicate IsCompressed(img: Str) {
    || (|img| >= 2 && img[..2] == [0x1f, 0x8b])
    || (|img| >= 4 && img[..4] == [0x28, 0xb5, 0x2f, 0xfd])
    || (|img| >= 6 && img[..6] == [0xfd, 0x37, 0x7a, 0x58, 0x5a, 0])
  }

  function Parsed(img: Str): (Rc, Id) {
    var none := Id([], [], [], [], false, []);
    if IsCompressed(img) then (Compressed, none)
    else if |img| < 64 || img[..4] != [0x7f, 0x45, 0x4c, 0x46] then (NotElf, none)
    else if img[4] != 2 || img[5] != 1 || Rd16(img, 16) != 1 then (Unsupported, none)
    else
      var shoff, shnum, shstrndx := Rd64(img, 0x28), Rd16(img, 0x3c), Rd16(img, 0x3e);
      if Rd16(img, 0x3a) != SHDR || shnum == 0 || shstrndx >= shnum || !Tabled(img, shoff, shnum) then (BadElf, none)
      else
        var strs := SecAt(img, shoff, shstrndx);
        if strs.kind != 3 || !InFile(strs, |img|) || strs.size == 0 then (BadElf, none)
        else
          match FindModinfo(img, shoff, shnum, strs, 0)
          case None => (NoModinfo, none)
          case Some(s) =>
            if !InFile(s, |img|) then (BadElf, none)
            else
              var (rc, id) := Modinfo(img[s.off..s.off + s.size]);
              (rc, id.(sigMarker := |img| >= |MARKER| && img[|img| - |MARKER|..] == MARKER, sha256 := Hash(Octets(img))))
  }

  lemma MagicIs(img: Str)
    ensures IsCompressed(img) <==>
            || (|img| >= 2 && img[0] == 0x1f && img[1] == 0x8b)
            || (|img| >= 4 && img[..4] == [0x28, 0xb5, 0x2f, 0xfd])
            || (|img| >= 6 && img[..6] == [0xfd, 0x37, 0x7a, 0x58, 0x5a, 0x00])
  {
    if |img| >= 2 {
      assert img[..2] == [img[0], img[1]];
    }
  }

  /** What the fields themselves can be refused for. */
  lemma ModinfoCodes()
    ensures forall p :: Modinfo(p).0 in {Ok, NoName, BadField}
  {
    hide Fields, First;
  }

  method Parse(img: Str) returns (rc: Rc, id: Id)
    ensures rc == Parsed(img).0 && (rc.Ok? ==> id == Parsed(img).1)
    // gzip, zstd and xz files first, then anything that is not a 64-bit little-endian relocatable ELF file
    ensures rc.Compressed? <==>
            || (|img| >= 2 && img[0] == 0x1f && img[1] == 0x8b)
            || (|img| >= 4 && img[..4] == [0x28, 0xb5, 0x2f, 0xfd])
            || (|img| >= 6 && img[..6] == [0xfd, 0x37, 0x7a, 0x58, 0x5a, 0x00])
    ensures rc.NotElf? <==> !rc.Compressed? && (|img| < 64 || img[..4] != [0x7f, 0x45, 0x4c, 0x46])
    ensures rc.Unsupported? <==>
            !rc.Compressed? && !rc.NotElf? && (img[4] != 2 || img[5] != 1 || Rd16(img, 16) != 1)
  {
    MagicIs(img);
    ModinfoCodes();
    hide Modinfo, SecAt, NamedModinfo, Rd16, Rd64, IsCompressed, Hash, Octets;
    id := Id([], [], [], [], false, []);
    if IsCompressed(img) {
      return Compressed, id;
    }
    if |img| < 64 || img[..4] != [0x7f, 0x45, 0x4c, 0x46] {
      return NotElf, id;
    }
    if img[4] != 2 || img[5] != 1 || Rd16(img, 16) != 1 {
      return Unsupported, id;
    }
    var shoff, shnum, shstrndx := Rd64(img, 0x28), Rd16(img, 0x3c), Rd16(img, 0x3e);
    if Rd16(img, 0x3a) != SHDR || shnum == 0 || shstrndx >= shnum {
      return BadElf, id;
    }
    if shoff > |img| || shnum * SHDR > |img| - shoff {
      return BadElf, id;
    }
    var strs := SecAt(img, shoff, shstrndx);
    if strs.kind != 3 || !InFile(strs, |img|) || strs.size == 0 {
      return BadElf, id;
    }
    var i := 0;
    while i < shnum
      invariant i <= shnum && FindModinfo(img, shoff, shnum, strs, 0) == FindModinfo(img, shoff, shnum, strs, i)
    {
      var s := SecAt(img, shoff, i);
      if NamedModinfo(img, strs, s) {
        if !InFile(s, |img|) {
          return BadElf, id;
        }
        rc, id := ParseModinfo(img[s.off..s.off + s.size]);
        if rc.Ok? {
          var digest := HashTwo(Octets(img), []);
          assert Octets(img) + [] == Octets(img);
          id := id.(sigMarker := |img| >= |MARKER| && img[|img| - |MARKER|..] == MARKER, sha256 := digest);
        }
        return;
      }
      i := i + 1;
    }
    return NoModinfo, id;
  }

  // ----- What an accepted identity looks like -----

  ghost predicate GoodName(s: Str) {
    0 < |s| < NAME_MAX && forall c :: c in s ==> NameChar(c)
  }

  ghost predicate GoodVersion(s: Str) {
    |s| < SRCVER_MAX && forall c :: c in s ==> HexChar(c)
  }

  /** Everything accepted can be printed as an entry. */
  lemma AcceptedIsGood(img: Str)
    requires Parsed(img).0.Ok?
    ensures GoodName(Parsed(img).1.name) && GoodVersion(Parsed(img).1.srcversion)
  {
    hide Fields, First, SecAt, NamedModinfo, FindModinfo, IsCompressed, Rd16, Rd64, Tabled, Hash, Octets;
  }

  const AT: Byte := 64

  /** NAME@SRCVERSION, or NAME when the module has no srcversion, cut to the buffer. */
  function Entry(id: Id, len: nat): Str {
    var s := id.name + if id.srcversion != [] then [AT] + id.srcversion else [];
    if |s| < len then s else if len == 0 then [] else s[..len - 1]
  }
}
