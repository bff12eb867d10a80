/** MODE SENSE and MODE SELECT: the caching page is built, and a list of pages walked, for both CDB
  * sizes. */
module ModePages {
  import opened Base
  import opened Endian
  import opened Scsi

  const CACHING: nat := 0x08
  const ALL_PAGES: nat := 0x3F
  const CACHING_BYTES: nat := 20

  function HeaderLen(is10: bool): nat {
    if is10 then 8 else 4
  }

  // ----- Pages ---------------------------------------------------------------------------

  /** A mode page: its code byte, and what follows the length byte. */
  datatype ModePage = ModePage(code: byte, body: seq<byte>)

  predicate Fits(p: ModePage) {
    |p.body| < 0x100
  }

  function EncodePage(p: ModePage): seq<byte>
    requires Fits(p)
  {
    [p.code, |p.body|] + p.body
  }

  function EncodePages(ps: seq<ModePage>): seq<byte>
    requires forall p :: p in ps ==> Fits(p)
  {
    if ps == [] then [] else EncodePage(ps[0]) + EncodePages(ps[1..])
  }

  /** The write cache setting of a page, if it is a caching page that has one. */
  function PageWce(p: ModePage): Option<bool> {
    if p.code % 0x40 == CACHING && |p.body| >= 1 then Some(p.body[0] / 4 % 2 == 1) else None
  }

  /** The setting that counts: that of the last such page. */
  function LastWce(ps: seq<ModePage>): Option<bool> {
    if ps == [] then None
    else
      var later := LastWce(ps[1..]);
      if later.Some? then later else PageWce(ps[0])
  }

  /** The caching page MODE SENSE returns. */
  function CachingPage(wce: bool): ModePage {
    ModePage(CACHING, [if wce then 4 else 0] + seq(17, _ => 0))
  }

  // ----- MODE SENSE ----------------------------------------------------------------------

  /** The mode parameter header in front of `used` bytes of pages: a length that excludes itself,
    * zeroes elsewhere. */
  function Header(is10: bool, used: nat): (h: seq<byte>)
    requires used <= CACHING_BYTES
    ensures |h| == HeaderLen(is10)
  {
    if is10 then [0, 6 + used, 0, 0, 0, 0, 0, 0] else [3 + used, 0, 0, 0]
  }

  function Response(is10: bool, wce: bool, used: nat): (r: seq<byte>)
    requires used <= CACHING_BYTES
    ensures |r| == HeaderLen(is10) + used
  {
    Header(is10, used) + EncodePage(CachingPage(wce))[..used]
  }

  function AllocLen(cdb: seq<byte>): nat
    requires |cdb| == 10
  {
    if cdb[0] == 0x5A || cdb[0] == 0x55 then Be16(cdb[7..9]) else cdb[4] as int
  }

  /** The volatile write cache as the driver knows it. */
  class Cache {
    const present: bool
    var enabled: bool

    constructor (present: bool)
      ensures this.present == present && enabled == present
    {
      this.present, enabled := present, present;
    }
  }

  /** memset of a stretch of the response. */
  method Clear(out: array<byte>, n: nat)
    requires n <= out.Length
    modifies out
    ensures out[..] == seq(n, _ => 0) + old(out[..])[n..]
  {
    ghost var was := out[..];
    var i := 0;
    while i < n
      invariant 0 <= i <= n && (forall j :: 0 <= j < i ==> out[j] == 0) && out[..][n..] == was[n..]
    {
      out[i] := 0;
      i := i + 1;
    }
  }

  /** fill_caching_page, or as much of it as there is room for. */
  method FillPage(out: array<byte>, at: nat, room: nat, wce: bool) returns (used: nat)
    requires at + room <= out.Length
    modifies out
    ensures used == if room >= CACHING_BYTES then CACHING_BYTES else room
    ensures out[..] == old(out[..])[..at] + EncodePage(CachingPage(wce))[..used] + old(out[..])[at + used..]
  {
    used := if room >= CACHING_BYTES then CACHING_BYTES else room;
    ghost var page, was := EncodePage(CachingPage(wce)), out[..];
    var i := 0;
    while i < used
      invariant 0 <= i <= used
      invariant out[..][..at] == was[..at] && out[..][at + i..] == was[at + i..]
      invariant forall j :: 0 <= j < i ==> out[at + j] == page[j]
    {
      out[at + i] := if i == 0 then CACHING else if i == 1 then 18 else if i == 2 && wce then 4 else 0;
      assert was[at + i + 1..] == was[at + i..][1..];
      i := i + 1;
    }
    assert out[..][at..at + used] == page[..used];
    Thirds(out[..], at, used);
  }

  lemma Thirds(s: seq<byte>, at: nat, n: nat)
    requires at + n <= |s|
    ensures s == s[..at] + s[at..at + n] + s[at + n..]
  {
  }

  /** NVMe_SCSI_HandleModeSense.  `was` is the SCSI status before, which a probe too short for the
    * header leaves as it is. */
  method ModeSense(cache: Cache, cdb: seq<byte>, hasData: bool, out: array<byte>, was: nat)
      returns (scsiStatus: nat, sense: Sense, actual: nat)
    requires |cdb| == 10 && (cdb[0] == 0x5A || cdb[0] == 0x1A)
    modifies out
    ensures var is10, alloc, head := cdb[0] == 0x5A, AllocLen(cdb), HeaderLen(cdb[0] == 0x5A);
      var page := cdb[2] % 0x40;
      if !hasData || out.Length < alloc then
        scsiStatus == 2 && sense == NoSense && actual == 0 && out[..] == old(out[..])
      else if alloc < head then
        scsiStatus == was && actual == alloc && out[..] == seq(alloc, _ => 0) + old(out[..])[alloc..]
      else if page != CACHING && page != ALL_PAGES then
        scsiStatus == 2 && sense == Sense(ILLEGAL_REQUEST, 0x24, 0) && actual == 0 && out[..][head..] == old(out[..])[head..]
      else
        var used := if alloc - head >= CACHING_BYTES then CACHING_BYTES else alloc - head;
        && scsiStatus == 0 && sense == NoSense && actual == head + used
        && out[..] == Response(is10, cache.enabled, used) + old(out[..])[head + used..]
  {
    var is10, alloc := cdb[0] == 0x5A, AllocLen(cdb);
    scsiStatus, sense, actual := 2, NoSense, 0;
    if !hasData || out.Length < alloc {
      return;
    }
    var head := HeaderLen(is10);
    if alloc < head {
      Clear(out, alloc);
      return was, NoSense, alloc;
    }
    var page := cdb[2] % 0x40;
    if page != CACHING && page != ALL_PAGES {
      Clear(out, head);
      sense := Sense(ILLEGAL_REQUEST, 0x24, 0);
      return;
    }
    var used := Build(out, is10, alloc, cache.enabled);
    scsiStatus, actual := 0, head + used;
  }

  /** A supported page: header, page, length. */
  method Build(out: array<byte>, is10: bool, alloc: nat, wce: bool) returns (used: nat)
    requires HeaderLen(is10) <= alloc <= out.Length
    modifies out
    ensures used == if alloc - HeaderLen(is10) >= CACHING_BYTES then CACHING_BYTES else alloc - HeaderLen(is10)
    ensures out[..] == Response(is10, wce, used) + old(out[..])[HeaderLen(is10) + used..]
  {
    ghost var whole := EncodePage(CachingPage(wce));
    assert |whole| == CACHING_BYTES;
    hide EncodePage, CachingPage, HeaderLen, Header, Response;
    ghost var was, head := out[..], HeaderLen(is10);
    Clear(out, HeaderLen(is10));
    ghost var zeroes := seq(head, _ => 0 as byte);
    used := FillPage(out, HeaderLen(is10), alloc - HeaderLen(is10), wce);
    Assembled(was, zeroes, whole[..used]);
    ResponseIs(is10, wce, used, was[head + used..]);
    FinishHeader(out, is10, used);
  }

  lemma ResponseIs(is10: bool, wce: bool, used: nat, rest: seq<byte>)
    requires used <= CACHING_BYTES
    ensures Header(is10, used) + (EncodePage(CachingPage(wce))[..used] + rest) == Response(is10, wce, used) + rest
  {
    hide EncodePage, CachingPage, Header;
  }

  lemma Assembled(was: seq<byte>, zeroes: seq<byte>, page: seq<byte>)
    requires |zeroes| + |page| <= |was|
    ensures var head, cleared := |zeroes|, zeroes + was[|zeroes|..];
      var filled := cleared[..head] + page + cleared[head + |page|..];
      filled[..head] == zeroes && filled[head..] == page + was[head + |page|..]
  {
    var head, cleared := |zeroes|, zeroes + was[|zeroes|..];
    assert cleared[..head] == zeroes && cleared[head + |page|..] == was[head + |page|..];
  }

  /** The mode data length. */
  method FinishHeader(out: array<byte>, is10: bool, used: nat)
    requires used <= CACHING_BYTES && HeaderLen(is10) <= out.Length
    requires out[..][..HeaderLen(is10)] == seq(HeaderLen(is10), _ => 0)
    modifies out
    ensures out[..] == Header(is10, used) + old(out[..])[HeaderLen(is10)..]
  {
    var total := HeaderLen(is10) + used;
    assert forall j :: 0 <= j < HeaderLen(is10) ==> out[j] == out[..][..HeaderLen(is10)][j] == 0;
    if is10 {
      out[0], out[1] := (total - 2) / 0x100, (total - 2) % 0x100;
    } else {
      out[0] := (total - 1) % 0x100;
    }
  }

  // ----- MODE SELECT ---------------------------------------------------------------------

  datatype Walk = Overrun | Pages(wce: Option<bool>)

  /** The page walk from `off` on, `seen` being the setting found so far. */
  function WalkFrom(data: seq<byte>, off: nat, seen: Option<bool>): Walk
    requires off <= |data|
    decreases |data| - off
  {
    if off + 2 > |data| then Pages(seen)
    else
      var plen := data[off + 1] as nat;
      if off + 2 + plen > |data| then Overrun
      else
        var found := PageWce(ModePage(data[off], data[off + 2..off + 2 + plen]));
        WalkFrom(data, off + 2 + plen, if found.Some? then found else seen)
  }

  /** Whatever pages a parameter list consists of, the walk finds the last caching page's setting; a
    * last odd byte is ignored. */
  lemma {:induction false} WalkFindsLast(head: seq<byte>, ps: seq<ModePage>, tail: seq<byte>, seen: Option<bool>)
    requires (forall p :: p in ps ==> Fits(p)) && |tail| < 2
    ensures WalkFrom(head + EncodePages(ps) + tail, |head|, seen) == Pages(if LastWce(ps).Some? then LastWce(ps) else seen)
    decreases |ps|
  {
    if ps != [] {
      var first, rest := EncodePage(ps[0]), ps[1..];
      FirstPage(head, ps, tail);
      WalkOnePage(head, ps[0], EncodePages(rest) + tail, seen);
      var found := PageWce(ps[0]);
      hide PageWce, WalkFrom, EncodePage, EncodePages;
      WalkFindsLast(head + first, rest, tail, if found.Some? then found else seen);
    }
  }

  lemma FirstPage(head: seq<byte>, ps: seq<ModePage>, tail: seq<byte>)
    requires ps != [] && forall p :: p in ps ==> Fits(p)
    ensures var first, rest := EncodePage(ps[0]), EncodePages(ps[1..]);
      head + EncodePages(ps) + tail == (head + first) + rest + tail == head + first + (rest + tail)
  {
    hide EncodePage;
  }

  lemma WalkOnePage(head: seq<byte>, p: ModePage, rest: seq<byte>, seen: Option<bool>)
    requires Fits(p)
    ensures var data, found := head + EncodePage(p) + rest, PageWce(p);
      WalkFrom(data, |head|, seen) == WalkFrom(data, |head + EncodePage(p)|, if found.Some? then found else seen)
  {
    var data := head + EncodePage(p) + rest;
    assert data[|head|] == p.code && data[|head| + 1] == |p.body|;
    assert data[|head| + 2..|head| + 2 + |p.body|] == p.body;
  }

  /** And where the walk succeeds, the list does consist of pages. */
  lemma {:induction false} WalkParses(data: seq<byte>, off: nat, seen: Option<bool>) returns (ps: seq<ModePage>, tail: seq<byte>)
    requires off <= |data| && WalkFrom(data, off, seen).Pages?
    ensures (forall p :: p in ps ==> Fits(p)) && |tail| < 2 && data[off..] == EncodePages(ps) + tail
    decreases |data| - off
  {
    if off + 2 > |data| {
      ps, tail := [], data[off..];
    } else {
      var next := off + 2 + data[off + 1] as nat;
      var page := ModePage(data[off], data[off + 2..next]);
      var found := PageWce(page);
      var rest: seq<ModePage>;
      rest, tail := WalkParses(data, next, if found.Some? then found else seen);
      ps := [page] + rest;
      assert data[off..] == EncodePage(page) + data[next..];
    }
  }

  /** Length of the block descriptors, which are skipped. */
  function DescriptorLen(is10: bool, data: seq<byte>): nat
    requires |data| >= HeaderLen(is10)
  {
    if is10 then Be16(data[6..8]) else data[3] as int
  }

  datatype Verdict = Nothing | Refuse(sense: Sense) | Accept(wce: Option<bool>)

  /** What a parameter list asks for. */
  function Parse(is10: bool, len: nat, hasData: bool, data: seq<byte>): Verdict {
    if len == 0 then Nothing
    else if !hasData || |data| < len || len < HeaderLen(is10) then Refuse(Sense(ILLEGAL_REQUEST, 0x1A, 0))
    else
      var start := HeaderLen(is10) + DescriptorLen(is10, data);
      if start > len then Refuse(Sense(ILLEGAL_REQUEST, 0x26, 0))
      else
        match WalkFrom(data[..len], start, None)
        case Overrun => Refuse(Sense(ILLEGAL_REQUEST, 0x26, 1))
        case Pages(wce) => Accept(wce)
  }

  /** The walk of NVMe_SCSI_HandleModeSelect. */
  method WalkPages(data: seq<byte>, start: nat, enabled: bool) returns (overrun: bool, saw: bool, wce: bool)
    requires start <= |data|
    ensures match WalkFrom(data, start, None)
      case Overrun => overrun
      case Pages(None) => !overrun && !saw && wce == enabled
      case Pages(Some(w)) => !overrun && saw && wce == w
  {
    var off := start;
    wce, saw, overrun := enabled, false, false;
    while off + 2 <= |data|
      invariant start <= off <= |data| && !overrun && (!saw ==> wce == enabled)
      invariant WalkFrom(data, start, None) == WalkFrom(data, off, if saw then Some(wce) else None)
    {
      var pc, plen := data[off] % 0x40, data[off + 1] as nat;
      if off + 2 + plen > |data| {
        overrun := true;
        return;
      }
      if pc == CACHING && plen >= 1 {
        saw := true;
        wce := data[off + 2] / 4 % 2 == 1;
      }
      off := off + 2 + plen;
    }
  }

  /** NVMe_SCSI_HandleModeSelect; `accepted` is whether Set Features, if issued, succeeds. */
  method ModeSelect(cache: Cache, cdb: seq<byte>, hasData: bool, data: seq<byte>, accepted: bool)
      returns (scsiStatus: nat, sense: Sense, actual: nat, issued: Option<bool>)
    requires |cdb| == 10 && (cdb[0] == 0x55 || cdb[0] == 0x15)
    modifies cache
    // Set Features is issued exactly for a well-formed list whose setting would change a cache there is.
    ensures var v := Parse(cdb[0] == 0x55, AllocLen(cdb), hasData, data);
      && issued == (if v.Accept? && v.wce.Some? && cache.present && v.wce.value != old(cache.enabled) then v.wce else None)
      && cache.enabled == (if issued.Some? && accepted then issued.value else old(cache.enabled))
      && match v
         case Nothing => scsiStatus == 0 && actual == 0 && sense == NoSense
         case Refuse(s) => scsiStatus == 2 && sense == s && actual == 0
         case Accept(_) =>
           if issued.Some? && !accepted then scsiStatus == 2 && sense == Sense(MEDIUM_ERROR, 0, 0) && actual == 0
           else scsiStatus == 0 && sense == NoSense && actual == AllocLen(cdb)
  {
    var is10, len := cdb[0] == 0x55, AllocLen(cdb);
    scsiStatus, sense, actual, issued := 2, NoSense, 0, None;
    if len == 0 {
      scsiStatus := 0;
      return;
    }
    if !hasData || |data| < len || len < HeaderLen(is10) {
      sense := Sense(ILLEGAL_REQUEST, 0x1A, 0);
      return;
    }
    var start := HeaderLen(is10) + DescriptorLen(is10, data);
    if start > len {
      sense := Sense(ILLEGAL_REQUEST, 0x26, 0);
      return;
    }
    var overrun, saw, wce := WalkPages(data[..len], start, cache.enabled);
    if overrun {
      sense := Sense(ILLEGAL_REQUEST, 0x26, 1);
      return;
    }
    if saw && cache.present && wce != cache.enabled {
      issued := Some(wce);
      if !accepted {
        sense := Sense(MEDIUM_ERROR, 0, 0);
        return;
      }
      cache.enabled := wce;
    }
    scsiStatus, actual := 0, len;
  }

  // ----- Round trips ---------------------------------------------------------------------

  /** A MODE SELECT parameter list: a header whose last field is the length of the block descriptors, the
    * descriptors, the pages, and at most one odd byte.  `lead` is the rest of the header. */
  function SelectList(is10: bool, lead: seq<byte>, blocks: seq<byte>, ps: seq<ModePage>, tail: seq<byte>): (data: seq<byte>)
    requires forall p :: p in ps ==> Fits(p)
  {
    lead + BigEndian(|blocks|, if is10 then 2 else 1) + blocks + EncodePages(ps) + tail
  }

  /** SELECT skips the descriptors, however long, and finds the setting of the last caching page. */
  lemma SelectListParses(is10: bool, lead: seq<byte>, blocks: seq<byte>, ps: seq<ModePage>, tail: seq<byte>, rest: seq<byte>)
    requires (forall p :: p in ps ==> Fits(p)) && |tail| < 2
    requires |lead| == (if is10 then 6 else 3) && |blocks| < if is10 then 0x1_0000 else 0x100
    ensures var data := SelectList(is10, lead, blocks, ps, tail);
      Parse(is10, |data|, true, data + rest) == Accept(LastWce(ps))
  {
    hide WalkFrom, EncodePages, LastWce, BigEndian;
    var field := BigEndian(|blocks|, if is10 then 2 else 1);
    var head, data := lead + field + blocks, SelectList(is10, lead, blocks, ps, tail);
    assert data == head + EncodePages(ps) + tail && (data + rest)[..|data|] == data;
    if is10 {
      Be16OfField(|blocks|);
      assert (data + rest)[6..8] == field;
    } else {
      BigEndianStep(|blocks|, 1);
      assert (data + rest)[3] == field[0];
    }
    assert DescriptorLen(is10, data + rest) == |blocks|;
    WalkFindsLast(head, ps, tail, None);
  }

  /** The mode data length of a response counts what follows the length field itself; no block descriptors
    * are announced, and the medium type and the device-specific byte are zero. */
  lemma ResponseHeader(is10: bool, wce: bool, used: nat)
    requires used <= CACHING_BYTES
    ensures var r := Response(is10, wce, used);
      if is10 then |r| >= 8 && 2 + Be16(r[..2]) == |r| && r[2] == r[3] == 0 && Be16(r[6..8]) == 0
      else |r| >= 4 && 1 + r[0] == |r| && r[1] == r[2] == r[3] == 0
  {
    hide EncodePage, CachingPage;
    var r := Response(is10, wce, used);
    if is10 {
      assert r[..2] == [0, 6 + used] && r[6..8] == [0, 0];
    }
  }

  /** An untruncated response parses as one caching page with the setting it reports. */
  lemma ResponseParses(is10: bool, wce: bool, rest: seq<byte>)
    ensures var r := Response(is10, wce, CACHING_BYTES);
      Parse(is10, |r|, true, r + rest) == Accept(Some(wce))
  {
    var r, page := Response(is10, wce, CACHING_BYTES), CachingPage(wce);
    var head := Header(is10, CACHING_BYTES);
    assert (r + rest)[..|r|] == r;
    assert EncodePage(page)[..CACHING_BYTES] == EncodePage(page);
    assert [page][1..] == [] && EncodePages([page]) == EncodePage(page);
    assert LastWce([page]) == Some(wce);
    assert r == head + EncodePages([page]) + [];
    WalkFindsLast(head, [page], [], None);
    assert is10 ==> (r + rest)[6..8] == [0, 0];
    assert DescriptorLen(is10, r + rest) == 0;
  }

  /** MODE SENSE of everything, for either CDB size. */
  function SenseCdb(is10: bool): (cdb: seq<byte>)
    ensures |cdb| == 10 && AllocLen(cdb) == 28 && cdb[0] == (if is10 then 0x5A else 0x1A) && cdb[2] == CACHING
  {
    var cdb: seq<byte> := [if is10 then 0x5A else 0x1A, 0, 0x08, 0, 28, 0, 0, 0, 28, 0];
    assert cdb[7..9] == [0, 28];
    cdb
  }

  /** SENSE, and its response fed back to SELECT of the same CDB size: good status, no command is issued and
    * nothing changes, whether or not there is a cache and whatever Set Features would do. */
  method SenseThenSelect(cache: Cache, is10: bool, select: seq<byte>, accepted: bool, out: array<byte>)
      returns (scsiStatus: nat, issued: Option<bool>)
    requires |select| == 10 && select[0] == (if is10 then 0x55 else 0x15) && AllocLen(select) == HeaderLen(is10) + CACHING_BYTES
    requires out.Length >= 28
    modifies cache, out
    ensures scsiStatus == 0 && issued == None && cache.enabled == old(cache.enabled)
    ensures out[..HeaderLen(is10) + CACHING_BYTES] == Response(is10, cache.enabled, CACHING_BYTES)
  {
    var sense, actual;
    scsiStatus, sense, actual := ModeSense(cache, SenseCdb(is10), true, out, 0);
    ResponseParses(is10, cache.enabled, []);
    var data := out[..actual];
    assert data == Response(is10, cache.enabled, CACHING_BYTES) + [];
    scsiStatus, sense, actual, issued := ModeSelect(cache, select, true, data, accepted);
  }

  /** SELECT of a setting, then SENSE: it reports that setting if and only if it was the setting already,
    * or there is a cache and Set Features succeeds. */
  method SelectThenSense(cache: Cache, select: seq<byte>, data: seq<byte>, accepted: bool, w: bool, is10: bool, out: array<byte>)
      returns (reported: seq<byte>)
    requires |select| == 10 && (select[0] == 0x55 || select[0] == 0x15)
    requires Parse(select[0] == 0x55, AllocLen(select), true, data) == Accept(Some(w))
    requires out.Length >= 28
    modifies cache, out
    ensures |reported| == HeaderLen(is10) + CACHING_BYTES
    ensures reported == Response(is10, w, CACHING_BYTES) <==> w == old(cache.enabled) || (cache.present && accepted)
  {
    var status, sense, actual, issued := ModeSelect(cache, select, true, data, accepted);
    status, sense, actual := ModeSense(cache, SenseCdb(is10), true, out, 0);
    reported := out[..actual];
    ReportsSetting(is10, cache.enabled, w);
  }

  lemma ReportsSetting(is10: bool, a: bool, b: bool)
    ensures Response(is10, a, CACHING_BYTES) == Response(is10, b, CACHING_BYTES) <==> a == b
  {
    var i := HeaderLen(is10) + 2;
    assert Response(is10, a, CACHING_BYTES)[i] == if a then 4 else 0;
    assert Response(is10, b, CACHING_BYTES)[i] == if b then 4 else 0;
  }
}
