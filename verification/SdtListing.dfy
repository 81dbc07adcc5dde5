// What the SDT parser reads is what a multiplexer wrote (src/psi.c:160-214), ETSI EN 300 468 sections 5.2.3 and 6.2.33.
module SdtListings {
  import opened Bytes
  import opened TsPackets
  import opened PsiTables
  import L = PsiListings

  // ---------- What a section lists ----------

  datatype Descriptor = Descriptor(tag: byte, body: seq<byte>)

  /** A service: number, flags, the bits above its length, its descriptors, and what is left of its length behind them. */
  datatype Service = Service(id: nat, flags: byte, lengthBits: nat, descriptors: seq<Descriptor>, slack: seq<byte>)

  /** How the service loop ends: with less than the head of a service; with a head that announces more than follows; or
      in a service whose last descriptor overruns it, whatever follows. */
  datatype Tail =
    | Whole(rest: seq<byte>)
    | CutService(head: seq<byte>)
    | CutDescriptor(service: Service, rest: seq<byte>)

  function DescriptorBytes(d: Descriptor): (r: seq<byte>)
    requires |d.body| < 256
    ensures |r| == 2 + |d.body|
  {
    [d.tag, |d.body|] + d.body
  }

  predicate DescriptorsOk(list: seq<Descriptor>)
  {
    forall i :: 0 <= i < |list| ==> |list[i].body| < 256
  }

  function DescriptorsBytes(list: seq<Descriptor>): seq<byte>
    requires DescriptorsOk(list)
  {
    if list == [] then [] else DescriptorBytes(list[0]) + DescriptorsBytes(list[1..])
  }

  function Body(sv: Service): seq<byte>
    requires DescriptorsOk(sv.descriptors)
  {
    DescriptorsBytes(sv.descriptors) + sv.slack
  }

  predicate ServiceOk(sv: Service)
  {
    sv.id < 0x1_0000 && sv.lengthBits < 16 && DescriptorsOk(sv.descriptors) && |Body(sv)| < 4096
  }

  function ServiceBytes(sv: Service): (r: seq<byte>)
    requires ServiceOk(sv)
    ensures |r| == 5 + |Body(sv)|
  {
    var n := |Body(sv)|;
    [sv.id / 256, sv.id % 256, sv.flags, sv.lengthBits * 16 + n / 256, n % 256] + Body(sv)
  }

  /** No descriptor begins in the slack. */
  predicate ServicesOk(list: seq<Service>)
  {
    forall i :: 0 <= i < |list| ==> ServiceOk(list[i]) && |list[i].slack| < 2
  }

  function ServicesBytes(list: seq<Service>): seq<byte>
    requires ServicesOk(list)
  {
    if list == [] then [] else ServiceBytes(list[0]) + ServicesBytes(list[1..])
  }

  predicate Overruns(slack: seq<byte>)
  {
    |slack| >= 2 && 2 + N(slack[1]) > |slack|
  }

  predicate TailOk(tail: Tail)
  {
    match tail
    case Whole(rest) => |rest| < 5
    case CutService(head) => |head| >= 5 && 5 + ReadLength(head, 3) > |head|
    case CutDescriptor(service, _) => ServiceOk(service) && Overruns(service.slack)
  }

  function TailBytes(tail: Tail): seq<byte>
    requires TailOk(tail)
  {
    match tail
    case Whole(rest) => rest
    case CutService(head) => head
    case CutDescriptor(service, rest) => ServiceBytes(service) + rest
  }

  /** From `pos` to the checksum the section lists these services. */
  ghost predicate ListsAt(s: seq<byte>, pos: nat, list: seq<Service>, tail: Tail)
    requires pos + 4 <= |s|
  {
    ServicesOk(list) && TailOk(tail) && s[pos..|s| - 4] == ServicesBytes(list) + TailBytes(tail)
  }

  // ---------- What the names become ----------

  /** Names are shown without the byte that selects a character table, other than printable ASCII as question marks, and
      cut to 255 bytes. */
  lemma NameShown(selector: seq<byte>, text: seq<byte>)
    requires selector == [] || (|selector| == 1 && selector[0] in {0x05, 0x10, 0x11, 0x12, 0x15})
    requires selector == [] && text != [] ==> text[0] !in {0x05, 0x10, 0x11, 0x12, 0x15}
    ensures var shown := DvbText(selector + text);
            && |shown| == (if |text| < 255 then |text| else 255)
            && forall i :: 0 <= i < |shown| ==> shown[i] == if 0x20 <= text[i] < 0x7f then text[i] else 0x3f
  {
    if selector == [] {
      assert selector + text == text;
    } else {
      assert (selector + text)[1..] == text;
    }
  }

  /** The names a service descriptor with room for both gives. */
  function Naming(id: nat, d: Descriptor): (r: seq<Names>)
    ensures |r| <= 1 && forall i :: 0 <= i < |r| ==> r[i].serviceId == id
  {
    if d.tag != 0x48 || |d.body| < 3 || 3 + N(d.body[1]) > |d.body| then [] else
    var p := N(d.body[1]);
    var n := N(d.body[2 + p]);
    if 3 + p + n > |d.body| then [] else [Names(id, DvbText(d.body[2..2 + p]), DvbText(d.body[3 + p..3 + p + n]))]
  }

  function NamingsIn(id: nat, list: seq<Descriptor>): seq<Names>
  {
    if list == [] then [] else Naming(id, list[0]) + NamingsIn(id, list[1..])
  }

  function NamingsOf(list: seq<Service>): seq<Names>
  {
    if list == [] then [] else NamingsIn(list[0].id, list[0].descriptors) + NamingsOf(list[1..])
  }

  function TailNamings(tail: Tail): seq<Names>
  {
    if tail.CutDescriptor? then NamingsIn(tail.service.id, tail.service.descriptors) else []
  }

  /** Once a service is named, only that service is renamed; one under the number 0x1fff gives way to any. */
  function Renamed(names: Names, later: seq<Names>): Names
    decreases |later|
  {
    if later == [] then names
    else if names.serviceId in {NULL_PID, later[0].serviceId} then Renamed(later[0], later[1..])
    else Renamed(names, later[1..])
  }

  /** The first naming of a table always counts, whatever was known before. */
  function NamesAfter(names: Names, namings: seq<Names>): Names
  {
    if namings == [] then names else Renamed(namings[0], namings[1..])
  }

  /** The last naming of the service named first. */
  lemma {:induction false} RenamedLast(names: Names, later: seq<Names>)
    requires names.serviceId != NULL_PID
    ensures var r := Renamed(names, later);
            && r.serviceId == names.serviceId
            && (r == names || r in later)
            && exists k :: 0 <= k <= |later| && ([names] + later)[k] == r
                           && forall i :: k < i <= |later| ==> ([names] + later)[i].serviceId != names.serviceId
    decreases |later|
  {
    var r := Renamed(names, later);
    if later == [] {
      assert ([names] + later)[0] == r;
    } else if names.serviceId == later[0].serviceId {
      RenamedLast(later[0], later[1..]);
      var k :| 0 <= k <= |later| - 1 && ([later[0]] + later[1..])[k] == r
               && forall i :: k < i <= |later| - 1 ==> ([later[0]] + later[1..])[i].serviceId != names.serviceId;
      assert [later[0]] + later[1..] == later;
      assert forall i :: 1 <= i <= |later| ==> ([names] + later)[i] == later[i - 1];
      assert ([names] + later)[k + 1] == r;
    } else {
      RenamedLast(names, later[1..]);
      var k :| 0 <= k <= |later| - 1 && ([names] + later[1..])[k] == r
               && forall i :: k < i <= |later| - 1 ==> ([names] + later[1..])[i].serviceId != names.serviceId;
      assert forall i :: 2 <= i <= |later| ==> ([names] + later)[i] == ([names] + later[1..])[i - 1];
      if k == 0 {
        assert ([names] + later)[0] == r;
      } else {
        assert ([names] + later)[k + 1] == r;
      }
    }
  }

  // ---------- The parser reads them ----------

  /** Names and flag as the parser carries them over some namings. */
  function Carried(names: Names, found: bool, namings: seq<Names>): (Names, bool)
  {
    (if found then Renamed(names, namings) else NamesAfter(names, namings), found || namings != [])
  }

  lemma {:induction false} RenamedConcat(names: Names, a: seq<Names>, b: seq<Names>)
    ensures Renamed(names, a + b) == Renamed(Renamed(names, a), b)
    decreases |a|
  {
    if a == [] {
      assert a + b == b;
    } else {
      assert (a + b)[0] == a[0] && (a + b)[1..] == a[1..] + b;
      RenamedConcat(if names.serviceId in {NULL_PID, a[0].serviceId} then a[0] else names, a[1..], b);
    }
  }

  lemma CarriedConcat(names: Names, found: bool, a: seq<Names>, b: seq<Names>)
    ensures Carried(names, found, a + b) == Carried(Carried(names, found, a).0, Carried(names, found, a).1, b)
  {
    hide Renamed;
    RenamedConcat(names, a, b);
    if a == [] {
      assert a + b == b;
      NothingRenamed(names);
    } else {
      assert (a + b)[0] == a[0] && (a + b)[1..] == a[1..] + b;
      RenamedConcat(a[0], a[1..], b);
    }
  }

  lemma NothingRenamed(names: Names)
    ensures Renamed(names, []) == names
  {
  }

  lemma DescriptorRead(s: seq<byte>, at: nat, d: Descriptor, id: nat, names: Names, found: bool)
    requires |d.body| < 256 && at + 2 + |d.body| <= |s| && s[at..at + 2 + |d.body|] == DescriptorBytes(d)
    ensures N(s[at + 1]) == |d.body|
    ensures ServiceDescriptor(s, at, id, names, found) == Carried(names, found, Naming(id, d))
  {
    hide DvbText;
    var b := s[at..at + 2 + |d.body|];
    assert s[at] == b[0] == d.tag && s[at + 1] == b[1] == |d.body|;
    assert s[at + 2..at + 2 + |d.body|] == b[2..] == d.body;
    NamingTaken(names, found, Naming(id, d));
  }

  lemma NamingTaken(names: Names, found: bool, naming: seq<Names>)
    requires |naming| <= 1
    ensures Carried(names, found, naming) ==
            if naming != [] && (names.serviceId == NULL_PID || names.serviceId == naming[0].serviceId || !found)
            then (naming[0], true) else (names, found)
  {
    if naming != [] {
      assert naming[1..] == [];
      NothingRenamed(naming[0]);
    }
    NothingRenamed(names);
  }

  /** The descriptor loop of one service. */
  lemma {:induction false} DescriptorsRead(s: seq<byte>, dpos: nat, dend: nat, list: seq<Descriptor>, slack: seq<byte>,
                                           id: nat, names: Names, found: bool)
    requires dpos <= dend <= |s| && DescriptorsOk(list) && (|slack| < 2 || Overruns(slack))
    requires s[dpos..dend] == DescriptorsBytes(list) + slack
    ensures var (names', found') := Carried(names, found, NamingsIn(id, list));
            Descriptors(s, dpos, dend, id, names, found) == (names', found', |slack| < 2)
    decreases |list|
  {
    hide ServiceDescriptor, Naming, Carried;
    if list == [] {
      hide Carried;
      assert s[dpos..dend] == slack;
      assert |slack| >= 2 ==> slack[1] == s[dpos + 1];
      NothingCarried(names, found);
    } else {
      var d := list[0];
      L.Regroup(DescriptorBytes(d), DescriptorsBytes(list[1..]), slack);
      L.CutSlice(s, dpos, dend, DescriptorBytes(d), DescriptorsBytes(list[1..]) + slack);
      hide DescriptorsBytes, DescriptorBytes;
      DescriptorRead(s, dpos, d, id, names, found);
      var (names', found') := ServiceDescriptor(s, dpos, id, names, found);
      DescriptorsRead(s, dpos + 2 + |d.body|, dend, list[1..], slack, id, names', found');
      CarriedConcat(names, found, Naming(id, d), NamingsIn(id, list[1..]));
    }
  }

  lemma NothingCarried(names: Names, found: bool)
    ensures Carried(names, found, []) == (names, found)
  {
  }

  lemma HeadRead(s: seq<byte>, pos: nat, sv: Service)
    requires ServiceOk(sv) && pos + 5 + |Body(sv)| <= |s| && s[pos..pos + 5 + |Body(sv)|] == ServiceBytes(sv)
    ensures Read16(s, pos) == sv.id && ReadLength(s, pos + 3) == |Body(sv)|
    ensures s[pos + 5..pos + 5 + |Body(sv)|] == Body(sv)
  {
    hide Body;
    var b := ServiceBytes(sv);
    var t := s[pos..pos + 5 + |Body(sv)|];
    assert s[pos] == t[0] && s[pos + 1] == t[1] && s[pos + 3] == t[3] && s[pos + 4] == t[4];
    assert s[pos + 5..pos + 5 + |Body(sv)|] == t[5..] == Body(sv);
  }

  /** One service, whole or with an overrunning descriptor. */
  lemma ServiceRead(s: seq<byte>, pos: nat, sv: Service, rest: seq<byte>, names: Names, found: bool)
    requires |s| >= 15 && pos + 4 <= |s| && ServiceOk(sv) && (|sv.slack| < 2 || Overruns(sv.slack))
    requires s[pos..|s| - 4] == ServiceBytes(sv) + rest
    ensures var next := pos + 5 + |Body(sv)|;
            var (names', found') := Carried(names, found, NamingsIn(sv.id, sv.descriptors));
            && next + 4 <= |s| && s[next..|s| - 4] == rest
            && Services(s, pos, names, found) ==
               if |sv.slack| < 2 then Services(s, next, names', found') else (names', false)
  {
    hide ServiceBytes, Descriptors, Services, Read16, ReadLength, Carried, NamingsIn, Body, Overruns, DescriptorsOk;
    L.CutSlice(s, pos, |s| - 4, ServiceBytes(sv), rest);
    HeadRead(s, pos, sv);
    BodyRead(s, pos + 5, sv, names, found);
    ServicesTurn(s, pos, names, found);
  }

  /** The descriptor loop of a service. */
  lemma BodyRead(s: seq<byte>, dpos: nat, sv: Service, names: Names, found: bool)
    requires ServiceOk(sv) && (|sv.slack| < 2 || Overruns(sv.slack))
    requires dpos + |Body(sv)| <= |s| && s[dpos..dpos + |Body(sv)|] == Body(sv)
    ensures var (names', found') := Carried(names, found, NamingsIn(sv.id, sv.descriptors));
            Descriptors(s, dpos, dpos + |Body(sv)|, sv.id, names, found) == (names', found', |sv.slack| < 2)
  {
    hide Descriptors, Carried, NamingsIn, Overruns;
    DescriptorsRead(s, dpos, dpos + |Body(sv)|, sv.descriptors, sv.slack, sv.id, names, found);
  }

  /** One turn of the service loop. */
  lemma ServicesTurn(s: seq<byte>, pos: nat, names: Names, found: bool)
    requires |s| >= 15 && pos + 5 <= |s| - 4 && pos + 5 + ReadLength(s, pos + 3) <= |s| - 4
    ensures var dend := pos + 5 + ReadLength(s, pos + 3);
            var (names', found', ok) := Descriptors(s, pos + 5, dend, Read16(s, pos), names, found);
            Services(s, pos, names, found) == if ok then Services(s, dend, names', found') else (names', false)
  {
    hide Descriptors;
  }

  lemma TailRead(s: seq<byte>, pos: nat, tail: Tail, names: Names, found: bool)
    requires |s| >= 15 && pos + 4 <= |s| && TailOk(tail) && s[pos..|s| - 4] == TailBytes(tail)
    ensures Services(s, pos, names, found) == (Carried(names, found, TailNamings(tail)).0, tail.Whole?)
  {
    hide ServiceBytes, Carried, Descriptors;
    NothingCarried(names, found);
    match tail
    case Whole(rest) =>
      assert |s[pos..|s| - 4]| == |rest|;
    case CutService(head) =>
      assert head[3] == s[pos + 3] && head[4] == s[pos + 4];
    case CutDescriptor(service, rest) =>
      ServiceRead(s, pos, service, rest, names, found);
  }

  lemma {:induction false} ServicesRead(s: seq<byte>, pos: nat, list: seq<Service>, tail: Tail, names: Names, found: bool)
    requires |s| >= 15 && pos + 4 <= |s| && ListsAt(s, pos, list, tail)
    ensures Services(s, pos, names, found) == (Carried(names, found, NamingsOf(list) + TailNamings(tail)).0, tail.Whole?)
    decreases |list|
  {
    hide ServiceBytes, Carried, Services, NamingsIn, TailNamings, TailBytes, Body;
    if list == [] {
      assert [] + TailBytes(tail) == TailBytes(tail) && [] + TailNamings(tail) == TailNamings(tail);
      TailRead(s, pos, tail, names, found);
    } else {
      var sv := list[0];
      L.Regroup(ServiceBytes(sv), ServicesBytes(list[1..]), TailBytes(tail));
      ServiceRead(s, pos, sv, ServicesBytes(list[1..]) + TailBytes(tail), names, found);
      var first, later := NamingsIn(sv.id, sv.descriptors), NamingsOf(list[1..]) + TailNamings(tail);
      var (names', found') := Carried(names, found, first);
      ServicesRead(s, pos + 5 + |Body(sv)|, list[1..], tail, names', found');
      CarriedConcat(names, found, first, later);
      assert NamingsOf(list) + TailNamings(tail) == first + later;
    }
  }

  /** A checked SDT that lists some services leaves the names its service descriptors give, up to where it breaks off if
      it does; it is noted and cached exactly when it does not. */
  lemma SdtListing(psi: Psi, raw: Raw, s: seq<byte>, list: seq<Service>, tail: Tail)
    requires |s| >= 15 && IsSdt(s) && ListsAt(s, 11, list, tail)
    ensures var named := psi.(names := NamesAfter(psi.names, NamingsOf(list) + TailNamings(tail)));
            ParseSdt(psi, raw, s) == if tail.Whole? then named.(hasSdt := true, cachedSdt := Some(raw)) else named
  {
    hide ListsAt, IsSdt, Services, NamingsOf, TailNamings, NamesAfter, Renamed;
    ServicesRead(s, 11, list, tail, psi.names, false);
  }

  // ---------- Every section is such a list ----------

  /** Every descriptor loop lists some descriptors. */
  lemma {:induction false} EveryBodyLists(body: seq<byte>) returns (list: seq<Descriptor>, slack: seq<byte>)
    ensures DescriptorsOk(list) && (|slack| < 2 || Overruns(slack)) && body == DescriptorsBytes(list) + slack
    decreases |body|
  {
    if |body| < 2 || Overruns(body) {
      list, slack := [], body;
      assert [] + body == body;
    } else {
      var d := Descriptor(body[0], body[2..2 + N(body[1])]);
      var next := 2 + N(body[1]);
      list, slack := EveryBodyLists(body[next..]);
      DescriptorBack(body, d);
      ListMore(d, list);
      L.Regroup(DescriptorBytes(d), DescriptorsBytes(list), slack);
      assert body == body[..next] + body[next..];
      list := [d] + list;
    }
  }

  lemma DescriptorBack(body: seq<byte>, d: Descriptor)
    requires |body| >= 2 && 2 + N(body[1]) <= |body| && d == Descriptor(body[0], body[2..2 + N(body[1])])
    ensures |d.body| < 256 && DescriptorBytes(d) == body[..2 + N(body[1])]
  {
  }

  lemma ListMore(d: Descriptor, list: seq<Descriptor>)
    requires |d.body| < 256 && DescriptorsOk(list)
    ensures DescriptorsOk([d] + list) && DescriptorsBytes([d] + list) == DescriptorBytes(d) + DescriptorsBytes(list)
  {
    hide DescriptorBytes;
    assert ([d] + list)[1..] == list;
  }

  /** The service at the head of some bytes, its length inside them. */
  lemma ServiceAt(bytes: seq<byte>) returns (sv: Service)
    requires |bytes| >= 5 && 5 + ReadLength(bytes, 3) <= |bytes|
    ensures ServiceOk(sv) && (|sv.slack| < 2 || Overruns(sv.slack))
    ensures ServiceBytes(sv) == bytes[..5 + ReadLength(bytes, 3)]
  {
    var body := bytes[5..5 + ReadLength(bytes, 3)];
    var list, slack := EveryBodyLists(body);
    sv := Service(Read16(bytes, 0), bytes[2], N(bytes[3]) / 16, list, slack);
    hide DescriptorsBytes;
    assert Body(sv) == body;
    assert bytes[..5] + body == bytes[..5 + ReadLength(bytes, 3)];
    assert ServiceBytes(sv)[..5] == bytes[..5];
    assert ServiceBytes(sv) == ServiceBytes(sv)[..5] + body;
  }

  lemma ServicesMore(sv: Service, list: seq<Service>)
    requires ServiceOk(sv) && |sv.slack| < 2 && ServicesOk(list)
    ensures ServicesOk([sv] + list) && ServicesBytes([sv] + list) == ServiceBytes(sv) + ServicesBytes(list)
  {
    hide ServiceBytes, ServiceOk;
    assert ([sv] + list)[1..] == list;
  }

  lemma {:induction false} EveryLoopLists(bytes: seq<byte>) returns (list: seq<Service>, tail: Tail)
    ensures ServicesOk(list) && TailOk(tail) && bytes == ServicesBytes(list) + TailBytes(tail)
    decreases |bytes|
  {
    list := [];
    hide ServiceBytes, ServiceOk, ReadLength;
    if |bytes| < 5 {
      tail := Whole(bytes);
      assert [] + bytes == bytes;
    } else if 5 + ReadLength(bytes, 3) > |bytes| {
      tail := CutService(bytes);
      assert [] + bytes == bytes;
    } else {
      var next := 5 + ReadLength(bytes, 3);
      var sv := ServiceAt(bytes);
      assert bytes == bytes[..next] + bytes[next..];
      if |sv.slack| >= 2 {
        tail := CutDescriptor(sv, bytes[next..]);
        assert [] + TailBytes(tail) == TailBytes(tail);
      } else {
        list, tail := EveryLoopLists(bytes[next..]);
        ServicesMore(sv, list);
        L.Regroup(ServiceBytes(sv), ServicesBytes(list), TailBytes(tail));
        list := [sv] + list;
      }
    }
  }

  /** Every section lists some services, so that the listing covers every SDT. */
  lemma EverySdtLists(s: seq<byte>, pos: nat) returns (list: seq<Service>, tail: Tail)
    requires pos + 4 <= |s|
    ensures ListsAt(s, pos, list, tail)
  {
    list, tail := EveryLoopLists(s[pos..|s| - 4]);
  }
}
