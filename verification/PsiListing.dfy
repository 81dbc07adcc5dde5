// What the table parsers read is what a multiplexer wrote (src/psi.c:116-124, 224-252),
// ISO/IEC 13818-1 sections 2.4.4.3 and 2.4.4.8.
module PsiListings {
  import opened Bytes
  import opened TsPackets
  import opened Crc
  import opened PsiTables

  // ---------- PMT ----------

  /** An elementary stream as a PMT lists it: the reserved bits above its PID and above its length, the length it
      announces, and the descriptors that follow. */
  datatype Entry = Entry(stream: Stream, pidBits: nat, lengthBits: nat, announced: nat, info: seq<byte>)

  predicate EntryOk(e: Entry)
  {
    e.stream.pid < PID_COUNT && e.pidBits < 8 && e.lengthBits < 16 && |e.info| <= e.announced < 4096
  }

  predicate EntriesOk(list: seq<Entry>)
  {
    forall i :: 0 <= i < |list| ==> EntryOk(list[i])
  }

  /** The five bytes of an entry and its descriptors. */
  function EntryBytes(e: Entry): (r: seq<byte>)
    requires EntryOk(e)
    ensures |r| == 5 + |e.info|
  {
    [e.stream.streamType, e.pidBits * 32 + e.stream.pid / 256, e.stream.pid % 256,
     e.lengthBits * 16 + e.announced / 256, e.announced % 256] + e.info
  }

  function ListBytes(list: seq<Entry>): seq<byte>
    requires EntriesOk(list)
  {
    if list == [] then [] else EntryBytes(list[0]) + ListBytes(list[1..])
  }

  /** Only the last entry may announce more descriptors than follow, and then nothing follows it; otherwise less than
      the head of an entry may follow. */
  predicate Complete(list: seq<Entry>, rest: seq<byte>)
  {
    && |rest| < 5
    && forall i :: 0 <= i < |list| && (i < |list| - 1 || rest != []) ==> list[i].announced == |list[i].info|
  }

  /** From `pos` to the checksum the section holds some entries and a rest too short for another. */
  ghost predicate ListsAt(s: seq<byte>, pos: nat, list: seq<Entry>, rest: seq<byte>)
    requires pos + 4 <= |s|
  {
    EntriesOk(list) && Complete(list, rest) && s[pos..|s| - 4] == ListBytes(list) + rest
  }

  /** MPEG-2, H.264 and H.265 video. */
  function VideoOf(list: seq<Entry>): seq<Stream>
  {
    if list == [] then [] else
    (if list[0].stream.streamType in {0x02, 0x1b, 0x24} then [list[0].stream] else []) + VideoOf(list[1..])
  }

  /** MPEG-1, MPEG-2 and AAC audio. */
  function AudioOf(list: seq<Entry>): seq<Stream>
  {
    if list == [] then [] else
    (if list[0].stream.streamType in {0x03, 0x04, 0x0f} then [list[0].stream] else []) + AudioOf(list[1..])
  }

  /** The first 32 streams: what the context has room for. */
  function Capped(streams: seq<Stream>): (r: seq<Stream>)
    ensures |r| <= MAX_STREAMS
  {
    if |streams| <= 32 then streams else streams[..32]
  }

  /** The head of the entry at `pos`. */
  predicate HeadAt(s: seq<byte>, pos: nat, e: Entry)
    requires pos + 5 <= |s|
  {
    s[pos] == e.stream.streamType && ReadPid(s, pos + 1) == e.stream.pid && ReadLength(s, pos + 3) == e.announced
  }

  lemma EntryRead(s: seq<byte>, pos: nat, e: Entry)
    requires EntryOk(e) && pos + 5 + |e.info| <= |s| && s[pos..pos + 5 + |e.info|] == EntryBytes(e)
    ensures HeadAt(s, pos, e)
  {
    var b := EntryBytes(e);
    assert forall k :: 0 <= k < 5 ==> s[pos + k] == s[pos..pos + 5 + |e.info|][k] == b[k];
    assert s[pos + 0] == b[0] && s[pos + 1] == b[1] && s[pos + 2] == b[2] && s[pos + 3] == b[3] && s[pos + 4] == b[4];
  }

  lemma CutSlice(s: seq<byte>, pos: nat, end: nat, one: seq<byte>, rest: seq<byte>)
    requires pos <= end <= |s| && s[pos..end] == one + rest
    ensures pos + |one| <= end && s[pos..pos + |one|] == one && s[pos + |one|..end] == rest
  {
    var body := s[pos..end];
    assert body[..|one|] == one && body[|one|..] == rest;
    assert s[pos..pos + |one|] == body[..|one|] && s[pos + |one|..end] == body[|one|..];
  }

  lemma Regroup(a: seq<byte>, b: seq<byte>, c: seq<byte>)
    ensures a + b + c == a + (b + c)
  {
  }

  /** The first entry of a list, taken off. */
  lemma ListedFirst(s: seq<byte>, pos: nat, list: seq<Entry>, rest: seq<byte>)
    requires pos + 4 <= |s| && list != [] && ListsAt(s, pos, list, rest)
    ensures |list[0].info| <= list[0].announced && pos + 5 + |list[0].info| + 4 <= |s| && HeadAt(s, pos, list[0])
    ensures ListsAt(s, pos + 5 + |list[0].info|, list[1..], rest)
    ensures list[0].announced != |list[0].info| ==> list[1..] == [] && rest == [] && pos + 5 + |list[0].info| == |s| - 4
  {
    var e := list[0];
    hide EntryBytes, HeadAt;
    Regroup(EntryBytes(e), ListBytes(list[1..]), rest);
    CutSlice(s, pos, |s| - 4, EntryBytes(e), ListBytes(list[1..]) + rest);
    EntryRead(s, pos, e);
  }

  /** One stream more on a list that is cut at 32. */
  lemma CappedMore(streams: seq<Stream>, stream: Stream, more: seq<Stream>)
    requires |streams| <= MAX_STREAMS
    ensures Capped(streams + ([stream] + more)) ==
            if |streams| < MAX_STREAMS then Capped((streams + [stream]) + more) else Capped(streams + more)
  {
    assert streams + ([stream] + more) == streams + [stream] + more;
    if |streams| == MAX_STREAMS {
      assert (streams + [stream] + more)[..MAX_STREAMS] == streams;
      assert more != [] ==> (streams + more)[..MAX_STREAMS] == streams;
      assert more == [] ==> streams + more == streams;
    }
  }

  lemma NoneCapped(streams: seq<Stream>)
    requires |streams| <= MAX_STREAMS
    ensures Capped(streams + []) == streams
  {
    assert streams + [] == streams;
  }

  /** A stream joins the list of its kind while there is room. */
  function Joined(streams: seq<Stream>, stream: Stream, wanted: bool): (r: seq<Stream>)
    ensures |streams| <= MAX_STREAMS ==> |r| <= MAX_STREAMS
  {
    if wanted && |streams| < MAX_STREAMS then streams + [stream] else streams
  }

  lemma JoinedCapped(streams: seq<Stream>, stream: Stream, wanted: bool, more: seq<Stream>)
    requires |streams| <= MAX_STREAMS
    ensures Capped(streams + ((if wanted then [stream] else []) + more)) == Capped(Joined(streams, stream, wanted) + more)
  {
    CappedMore(streams, stream, more);
    assert [] + more == more;
  }

  /** One turn of the parser's loop. */
  lemma StreamTurn(s: seq<byte>, pos: nat, e: Entry, video: seq<Stream>, audio: seq<Stream>)
    requires |s| >= 16 && pos + 5 + 4 <= |s| && |video| <= MAX_STREAMS && |audio| <= MAX_STREAMS && HeadAt(s, pos, e)
    ensures PmtStreams(s, pos, video, audio) ==
            PmtStreams(s, pos + 5 + e.announced, Joined(video, e.stream, IsVideoType(e.stream.streamType)),
                       Joined(audio, e.stream, IsAudioType(e.stream.streamType)))
  {
    hide ReadPid, ReadLength;
  }

  lemma StreamsEnd(s: seq<byte>, pos: nat, next: nat, video: seq<Stream>, audio: seq<Stream>)
    requires |s| >= 16 && pos + 5 > |s| - 4 && next >= pos && |video| <= MAX_STREAMS && |audio| <= MAX_STREAMS
    ensures PmtStreams(s, next, video, audio) == (video, audio)
  {
  }

  /** From any entry on, the parser adds exactly the streams listed there, as far as there is room. */
  lemma {:induction false} ListRead(s: seq<byte>, pos: nat, list: seq<Entry>, rest: seq<byte>, video: seq<Stream>, audio: seq<Stream>)
    requires |s| >= 16 && pos + 4 <= |s| && |video| <= MAX_STREAMS && |audio| <= MAX_STREAMS && ListsAt(s, pos, list, rest)
    ensures PmtStreams(s, pos, video, audio) == (Capped(video + VideoOf(list)), Capped(audio + AudioOf(list)))
    decreases |list|
  {
    hide PmtStreams, Capped, HeadAt, Joined, ListBytes, EntryOk;
    if list == [] {
      NoEntries(s, pos, rest);
      StreamsEnd(s, pos, pos, video, audio);
      NoneCapped(video);
      NoneCapped(audio);
    } else {
      var e := list[0];
      var next := pos + 5 + |e.info|;
      var isVideo, isAudio := IsVideoType(e.stream.streamType), IsAudioType(e.stream.streamType);
      ListedFirst(s, pos, list, rest);
      hide ListsAt;
      StreamTurn(s, pos, e, video, audio);
      JoinedCapped(video, e.stream, isVideo, VideoOf(list[1..]));
      JoinedCapped(audio, e.stream, isAudio, AudioOf(list[1..]));
      var video', audio' := Joined(video, e.stream, isVideo), Joined(audio, e.stream, isAudio);
      ListRead(s, next, list[1..], rest, video', audio');
      if e.announced != |e.info| {
        StreamsEnd(s, next, next, video', audio');
        StreamsEnd(s, next, pos + 5 + e.announced, video', audio');
      }
    }
  }

  lemma NoEntries(s: seq<byte>, pos: nat, rest: seq<byte>)
    requires pos + 4 <= |s| && ListsAt(s, pos, [], rest)
    ensures pos + 5 > |s| - 4
  {
    assert |s[pos..|s| - 4]| == |ListBytes([]) + rest| == |rest|;
  }

  /** A PMT section whose stream loop lists some streams leaves exactly those of video and audio types, in order, the
      first 32 of each kind, and the PID of the clock reference; it is noted and cached, and nothing else changes. */
  lemma PmtListing(psi: Psi, raw: Raw, s: seq<byte>, list: seq<Entry>, rest: seq<byte>)
    requires |s| >= 16 && IsPmt(s)
    requires var pos := 12 + ReadLength(s, 10); pos <= |s| - 4 && ListsAt(s, pos, list, rest)
    ensures ParsePmt(psi, raw, s) ==
            psi.(hasPmt := true, pcrPid := N(s[8]) % 32 * 256 + N(s[9]), video := Capped(VideoOf(list)),
                 audio := Capped(AudioOf(list)), cachedPmt := Some(raw))
  {
    hide IsPmt, Capped, PmtStreams, ReadLength, ListsAt;
    ListRead(s, 12 + ReadLength(s, 10), list, rest, [], []);
    assert [] + VideoOf(list) == VideoOf(list) && [] + AudioOf(list) == AudioOf(list);
  }

  /** The entry that stands at a place, its descriptors cut at the end of the section. */
  function EntryAt(s: seq<byte>, pos: nat): (e: Entry)
    requires pos + 5 + 4 <= |s|
    ensures EntryOk(e) && pos + 5 + |e.info| + 4 <= |s|
    ensures e.announced != |e.info| ==> pos + 5 + |e.info| == |s| - 4
  {
    var announced := ReadLength(s, pos + 3);
    var end := if pos + 5 + announced <= |s| - 4 then pos + 5 + announced else |s| - 4;
    Entry(Stream(ReadPid(s, pos + 1), s[pos]), N(s[pos + 1]) / 32, N(s[pos + 3]) / 16, announced, s[pos + 5..end])
  }

  lemma EntryAtBytes(s: seq<byte>, pos: nat)
    requires pos + 5 + 4 <= |s|
    ensures EntryBytes(EntryAt(s, pos)) == s[pos..pos + 5 + |EntryAt(s, pos).info|]
  {
    var e := EntryAt(s, pos);
    var b := EntryBytes(e);
    assert b[1] == N(s[pos + 1]) && b[3] == N(s[pos + 3]);
    var end := pos + 5 + |e.info|;
    assert b[..5] == [s[pos], s[pos + 1], s[pos + 2], s[pos + 3], s[pos + 4]] == s[pos..pos + 5];
    assert b[5..] == e.info == s[pos + 5..end];
    hide EntryBytes, EntryAt;
    assert b == b[..5] + b[5..] && s[pos..end] == s[pos..pos + 5] + s[pos + 5..end];
  }

  lemma ListsMore(s: seq<byte>, pos: nat, list: seq<Entry>, rest: seq<byte>)
    requires pos + 5 + 4 <= |s|
    requires ListsAt(s, pos + 5 + |EntryAt(s, pos).info|, list, rest)
    ensures ListsAt(s, pos, [EntryAt(s, pos)] + list, rest)
  {
    var e := EntryAt(s, pos);
    var next := pos + 5 + |e.info|;
    EntryAtBytes(s, pos);
    hide EntryBytes, EntryAt;
    assert ([e] + list)[1..] == list;
    Regroup(EntryBytes(e), ListBytes(list), rest);
    assert s[pos..|s| - 4] == s[pos..next] + s[next..|s| - 4];
    if e.announced != |e.info| {
      assert |ListBytes(list) + rest| == 0;
      NothingListed(list);
    }
  }

  lemma NothingListed(list: seq<Entry>)
    requires EntriesOk(list) && ListBytes(list) == []
    ensures list == []
  {
  }

  /** Every section lists some entries, so the listing covers every PMT. */
  lemma {:induction false} EverySectionLists(s: seq<byte>, pos: nat) returns (list: seq<Entry>, rest: seq<byte>)
    requires pos + 4 <= |s|
    ensures ListsAt(s, pos, list, rest)
    decreases |s| - pos
  {
    if pos + 5 + 4 <= |s| {
      hide ListsAt;
      list, rest := EverySectionLists(s, pos + 5 + |EntryAt(s, pos).info|);
      ListsMore(s, pos, list, rest);
      list := [EntryAt(s, pos)] + list;
    } else {
      list, rest := [], s[pos..|s| - 4];
      assert [] + rest == rest;
    }
  }

  // ---------- PAT ----------

  /** A program and the PID of its PMT, with the reserved bits above it. */
  datatype Program = Program(number: nat, pidBits: nat, pid: nat)

  predicate ProgramOk(p: Program)
  {
    p.number < 0x1_0000 && p.pidBits < 8 && p.pid < PID_COUNT
  }

  function ProgramBytes(p: Program): (r: seq<byte>)
    requires ProgramOk(p)
    ensures |r| == 4
  {
    [p.number / 256, p.number % 256, p.pidBits * 32 + p.pid / 256, p.pid % 256]
  }

  predicate ProgramsOk(list: seq<Program>)
  {
    forall i :: 0 <= i < |list| ==> ProgramOk(list[i])
  }

  function ProgramsBytes(list: seq<Program>): (r: seq<byte>)
    requires ProgramsOk(list)
    ensures |r| == 4 * |list|
  {
    if list == [] then [] else ProgramBytes(list[0]) + ProgramsBytes(list[1..])
  }

  lemma ProgramRead(s: seq<byte>, pos: nat, p: Program)
    requires ProgramOk(p) && pos + 4 <= |s| && s[pos..pos + 4] == ProgramBytes(p)
    ensures Read16(s, pos) == p.number && ReadPid(s, pos + 2) == p.pid
  {
    var b := ProgramBytes(p);
    assert forall k :: 0 <= k < 4 ==> s[pos + k] == s[pos..pos + 4][k] == b[k];
    assert s[pos + 0] == b[0] && s[pos + 1] == b[1] && s[pos + 2] == b[2] && s[pos + 3] == b[3];
  }

  /** The first program of a list that is not the network entry. */
  function FirstListed(list: seq<Program>): (r: Option<(nat, nat)>)
    ensures r.None? <==> forall i :: 0 <= i < |list| ==> list[i].number == 0
    ensures forall i :: 0 <= i < |list| && list[i].number != 0 && (forall k :: 0 <= k < i ==> list[k].number == 0) ==>
              r == Some((list[i].number, list[i].pid))
  {
    if list == [] then None
    else if list[0].number != 0 then Some((list[0].number, list[0].pid))
    else
      assert forall i :: 0 < i < |list| ==> list[i] == list[1..][i - 1];
      FirstListed(list[1..])
  }

  /** From any entry on, the parser finds the first program that is not the network entry, whatever the reserved bits;
      up to three bytes too many at the end do not matter. */
  lemma {:induction false} ProgramsRead(s: seq<byte>, pos: nat, list: seq<Program>, rest: seq<byte>)
    requires |s| >= 12 && pos <= |s| - 4 && ProgramsOk(list) && |rest| < 4
    requires s[pos..|s| - 4] == ProgramsBytes(list) + rest
    ensures FirstProgram(s, pos) == FirstListed(list)
    decreases |list|
  {
    if list == [] {
      assert |s[pos..|s| - 4]| == |rest|;
    } else {
      hide ProgramBytes, Read16, ReadPid;
      Regroup(ProgramBytes(list[0]), ProgramsBytes(list[1..]), rest);
      CutSlice(s, pos, |s| - 4, ProgramBytes(list[0]), ProgramsBytes(list[1..]) + rest);
      ProgramRead(s, pos, list[0]);
      if list[0].number == 0 {
        ProgramsRead(s, pos + 4, list[1..], rest);
      }
    }
  }

  /** A PAT section that lists some programs leaves the first that is not the network entry, its number and the PID of its
      PMT, unless that is the null PID; it is noted and cached, and nothing else changes. */
  lemma PatListing(psi: Psi, raw: Raw, s: seq<byte>, list: seq<Program>, rest: seq<byte>)
    requires |s| >= 12 && IsPat(s) && ProgramsOk(list) && |rest| < 4 && s[8..|s| - 4] == ProgramsBytes(list) + rest
    ensures ParsePat(psi, raw, s) ==
            match FirstListed(list)
            case None => psi
            case Some((number, pid)) =>
              if pid == 0x1fff then psi
              else psi.(hasPat := true, primaryPmtPid := pid, names := psi.names.(serviceId := number), cachedPat := Some(raw))
  {
    hide IsPat, FirstProgram, ProgramsBytes;
    ProgramsRead(s, 8, list, rest);
  }

  /** What makes a section a table: its table id, its least length, and a checksum of zero. */
  lemma TableIds(psi: Psi, pkt: TsPacket, raw: Raw)
    requires Parse(raw) == Some(pkt)
    ensures HasValidSection(psi, pkt, raw) <==>
            && Section(pkt, raw).Some?
            && var s := Section(pkt, raw).value;
               && Crc32(s) == Zero()
               && (if pkt.pid == 0 then s[0] == 0 && |s| >= 12
                   else if pkt.pid == 0x11 then s[0] in {0x42, 0x46} && |s| >= 15
                   else psi.primaryPmtPid != 0x1fff && pkt.pid == psi.primaryPmtPid && s[0] == 2 && |s| >= 16)
  {
    hide Parse, Section, Crc32;
  }
}
