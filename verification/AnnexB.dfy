// Byte streams of NAL units (src/recovery.c:118-126, 236-240): ITU-T H.264 and H.265, Annex B.
module AnnexB {
  import opened Bytes

  /** The start code prefix at `i`, if one begins there and something follows it: 3 or 4 bytes, or 0 for none. */
  function PrefixAt(data: seq<byte>, i: nat): (p: nat)
    ensures p in {0, 3, 4}
    ensures p != 0 ==> i + p < |data|
  {
    if i + 3 >= |data| || data[i] != 0 || data[i + 1] != 0 then 0
    else if data[i + 2] == 1 then 3
    else if i + 4 < |data| && data[i + 2] == 0 && data[i + 3] == 1 then 4
    else 0
  }

  /** `start_code`: the first start code at or behind `at`, and the length of its prefix. */
  function StartCode(data: seq<byte>, at: nat): (r: (nat, nat))
    ensures r.0 <= |data| || r.0 == at
    ensures r.0 < |data| ==> at <= r.0 && r.1 == PrefixAt(data, r.0) != 0
    ensures r.0 >= |data| ==> r == (|data|, 0)
    decreases |data| - at
  {
    if at + 3 >= |data| then (|data|, 0)
    else if PrefixAt(data, at) != 0 then (at, PrefixAt(data, at))
    else StartCode(data, at + 1)
  }

  /** One turn of the split loop: the unit from `at`, whose start code takes `prefix` bytes, to `end`. */
  datatype Unit = Unit(at: nat, prefix: nat, end: nat)

  /** The units the split loop visits from a start code on. */
  function Units(data: seq<byte>, at: nat, prefix: nat): (r: seq<Unit>)
    requires at < |data| ==> prefix == PrefixAt(data, at) != 0
    ensures forall u :: u in r ==>
              at <= u.at && u.at + u.prefix < |data| && 3 <= u.prefix <= 4 && u.at + u.prefix <= u.end <= |data|
    decreases |data| - at
  {
    if at >= |data| then [] else
    var (end, next) := StartCode(data, at + prefix);
    [Unit(at, prefix, end)] + Units(data, end, next)
  }

  function Split(data: seq<byte>): (r: seq<Unit>)
    ensures forall u :: u in r ==> u.at + u.prefix < |data| && 3 <= u.prefix <= 4 && u.at + u.prefix <= u.end <= |data|
  {
    var (at, prefix) := StartCode(data, 0);
    Units(data, at, prefix)
  }

  // ---------- Joining units ----------

  /** A unit to be written: the length of its start code and its body. */
  datatype Nal = Nal(prefix: nat, body: seq<byte>)

  function StartCodeBytes(prefix: nat): (r: seq<byte>)
  {
    if prefix == 4 then [0, 0, 0, 1] else [0, 0, 1]
  }

  function NalBytes(n: Nal): seq<byte>
  {
    StartCodeBytes(n.prefix) + n.body
  }

  function Join(nals: seq<Nal>): seq<byte>
  {
    if nals == [] then [] else NalBytes(nals[0]) + Join(nals[1..])
  }

  /** A body that Annex B allows: no start code in it and no zero byte at its end. */
  predicate CleanBody(body: seq<byte>)
  {
    && body != []
    && body[|body| - 1] != 0
    && forall i :: 0 <= i < |body| - 2 ==> !(body[i] == 0 && body[i + 1] == 0 && body[i + 2] == 1)
  }

  predicate CleanNal(n: Nal)
  {
    3 <= n.prefix <= 4 && CleanBody(n.body)
  }

  predicate CleanNals(nals: seq<Nal>)
  {
    forall i :: 0 <= i < |nals| ==> CleanNal(nals[i])
  }

  /** Where the units of a joined stream lie, `at` being the place of the first. */
  function Places(nals: seq<Nal>, at: nat): seq<Unit>
  {
    if nals == [] then [] else
    var end := at + nals[0].prefix + |nals[0].body|;
    [Unit(at, nals[0].prefix, end)] + Places(nals[1..], end)
  }

  // ---------- Splitting undoes joining ----------

  /** Scanning over bytes where no start code begins. */
  lemma {:induction false} ScanTo(data: seq<byte>, at: nat, end: nat)
    requires at <= end <= |data|
    requires forall i :: at <= i < end ==> PrefixAt(data, i) == 0
    requires end < |data| ==> PrefixAt(data, end) != 0
    ensures StartCode(data, at) == if end < |data| then (end, PrefixAt(data, end)) else (|data|, 0)
    decreases end - at
  {
    if at < end {
      ScanTo(data, at + 1, end);
    }
  }

  /** The start code of a joined unit is found in place. */
  lemma PrefixInPlace(front: seq<byte>, n: Nal, back: seq<byte>)
    requires CleanNal(n)
    ensures PrefixAt(front + NalBytes(n) + back, |front|) == n.prefix
  {
    var data := front + NalBytes(n) + back;
    assert data[|front|..|front| + n.prefix] == StartCodeBytes(n.prefix);
    var code := data[|front|..|front| + n.prefix];
    assert code[0] == data[|front|] && code[1] == data[|front| + 1] && code[2] == data[|front| + 2];
    if n.prefix == 4 {
      assert code[3] == data[|front| + 3];
    }
  }

  /** No start code begins inside a clean body, whatever follows it. */
  lemma BodyHasNone(front: seq<byte>, body: seq<byte>, back: seq<byte>)
    requires CleanBody(body)
    ensures forall i :: |front| <= i < |front| + |body| ==> PrefixAt(front + body + back, i) == 0
  {
    var data := front + body + back;
    assert forall k :: 0 <= k < |body| ==> data[|front| + k] == body[k];
    forall i | |front| <= i < |front| + |body|
      ensures PrefixAt(data, i) == 0
    {
      var k := i - |front|;
      if k + 2 < |body| {
        assert !(body[k] == 0 && body[k + 1] == 0 && body[k + 2] == 1);
        if k + 3 < |body| {
          assert !(body[k + 1] == 0 && body[k + 1 + 1] == 0 && body[k + 1 + 2] == 1);
        }
      }
    }
  }

  /** One turn of the loop takes exactly one joined unit. */
  lemma UnitStep(front: seq<byte>, n: Nal, back: seq<byte>)
    requires CleanNal(n)
    requires var data, end := front + NalBytes(n) + back, |front| + n.prefix + |n.body|;
             end < |data| ==> PrefixAt(data, end) != 0
    ensures var data, end := front + NalBytes(n) + back, |front| + n.prefix + |n.body|;
            && PrefixAt(data, |front|) == n.prefix
            && StartCode(data, |front| + n.prefix) == (end, if end < |data| then PrefixAt(data, end) else 0)
  {
    hide CleanBody, PrefixAt, StartCode;
    var data, end := front + NalBytes(n) + back, |front| + n.prefix + |n.body|;
    PrefixInPlace(front, n, back);
    var bodyFront := front + StartCodeBytes(n.prefix);
    BodyHasNone(bodyFront, n.body, back);
    assert data == bodyFront + n.body + back;
    ScanTo(data, |front| + n.prefix, end);
  }

  lemma UnitsTurn(data: seq<byte>, at: nat, end: nat, next: nat)
    requires at < |data| && PrefixAt(data, at) != 0
    requires StartCode(data, at + PrefixAt(data, at)) == (end, next)
    ensures Units(data, at, PrefixAt(data, at)) == [Unit(at, PrefixAt(data, at), end)] + Units(data, end, next)
  {
  }

  /** From any unit boundary on, the loop visits exactly the remaining units. */
  lemma {:induction false} UnitsOfJoin(front: seq<byte>, nals: seq<Nal>)
    requires CleanNals(nals)
    ensures nals != [] ==> |front| < |front + Join(nals)| && PrefixAt(front + Join(nals), |front|) == nals[0].prefix
    ensures nals != [] ==> Units(front + Join(nals), |front|, nals[0].prefix) == Places(nals, |front|)
    decreases |nals|
  {
    hide PrefixAt, StartCode, CleanBody, Units, NalBytes;
    if nals != [] {
      var n, rest := nals[0], nals[1..];
      var front' := front + NalBytes(n);
      var data := front + Join(nals);
      JoinSplits(front, nals);
      UnitsOfJoin(front', rest);
      UnitLength(front, n);
      assert rest == [] ==> Join(rest) == [];
      UnitStep(front, n, Join(rest));
      if rest == [] {
        assert Join(rest) == [] && data == front';
        UnitsTurn(data, |front|, |front'|, 0);
        NoUnits(data, |front'|);
      } else {
        UnitsTurn(data, |front|, |front'|, rest[0].prefix);
      }
    }
  }

  lemma JoinSplits(front: seq<byte>, nals: seq<Nal>)
    requires nals != []
    ensures front + Join(nals) == front + NalBytes(nals[0]) + Join(nals[1..])
  {
    hide NalBytes;
  }

  lemma UnitLength(front: seq<byte>, n: Nal)
    requires CleanNal(n)
    ensures |front + NalBytes(n)| == |front| + n.prefix + |n.body|
  {
  }

  lemma NoUnits(data: seq<byte>, at: nat)
    requires at >= |data|
    ensures Units(data, at, 0) == []
  {
  }

  /** Annex B round trip: splitting a stream of clean units visits exactly those units, in order. */
  lemma SplitOfJoin(nals: seq<Nal>)
    requires CleanNals(nals)
    ensures Split(Join(nals)) == Places(nals, 0)
  {
    UnitsOfJoin([], nals);
    assert [] + Join(nals) == Join(nals);
  }

  /** The bytes of a visited unit. */
  function UnitBytes(data: seq<byte>, u: Unit): seq<byte>
    requires u.at <= u.end <= |data|
  {
    data[u.at..u.end]
  }

  lemma FirstPlaced(front: seq<byte>, nals: seq<Nal>)
    requires nals != [] && CleanNal(nals[0])
    ensures var u := Places(nals, |front|)[0];
            && u == Unit(|front|, nals[0].prefix, |front + NalBytes(nals[0])|)
            && |front| <= u.end <= |front + Join(nals)| && (front + Join(nals))[u.at..u.end] == NalBytes(nals[0])
  {
    UnitLength(front, nals[0]);
    JoinSplits(front, nals);
    hide NalBytes;
  }

  lemma PlacesNext(front: seq<byte>, nals: seq<Nal>)
    requires nals != [] && CleanNal(nals[0])
    ensures Places(nals, |front|) != [] && Places(nals, |front|)[1..] == Places(nals[1..], |front + NalBytes(nals[0])|)
  {
    UnitLength(front, nals[0]);
    hide NalBytes;
  }

  /** The places and the bytes of the units of a joined stream. */
  lemma {:induction false} PlacedBytes(front: seq<byte>, nals: seq<Nal>, i: nat)
    requires CleanNals(nals) && i < |nals|
    ensures |Places(nals, |front|)| == |nals|
    ensures var u := Places(nals, |front|)[i];
            && u.prefix == nals[i].prefix
            && u.at <= u.end <= |front + Join(nals)|
            && UnitBytes(front + Join(nals), u) == NalBytes(nals[i])
    decreases |nals|
  {
    hide CleanBody, NalBytes, Places, Join;
    var rest := nals[1..];
    FirstPlaced(front, nals);
    PlacesNext(front, nals);
    JoinSplits(front, nals);
    if rest == [] {
      NoPlaces(|front + NalBytes(nals[0])|);
    } else {
      PlacedBytes(front + NalBytes(nals[0]), rest, if i > 0 then i - 1 else 0);
    }
  }

  lemma NoPlaces(at: nat)
    ensures Places([], at) == []
  {
  }

  lemma {:induction false} JoinAppend(a: seq<Nal>, b: seq<Nal>)
    ensures Join(a + b) == Join(a) + Join(b)
    decreases |a|
  {
    if a == [] {
      assert a + b == b;
    } else {
      assert (a + b)[1..] == a[1..] + b;
      JoinAppend(a[1..], b);
    }
  }

  /** Whatever the bytes, the visited units are adjacent and cover everything from the first start code on. */
  lemma {:induction false} UnitsCover(data: seq<byte>, at: nat, prefix: nat)
    requires at <= |data| && (at < |data| ==> prefix == PrefixAt(data, at) != 0)
    ensures var us := Units(data, at, prefix);
            && (us == [] <==> at == |data|)
            && (us != [] ==> us[0].at == at && us[|us| - 1].end == |data|)
            && forall i :: 0 < i < |us| ==> us[i].at == us[i - 1].end
    decreases |data| - at
  {
    hide PrefixAt, StartCode;
    if at < |data| {
      var (end, next) := StartCode(data, at + prefix);
      UnitsCover(data, end, next);
      var later := Units(data, end, next);
      assert Units(data, at, prefix) == [Unit(at, prefix, end)] + later;
    }
  }
}
