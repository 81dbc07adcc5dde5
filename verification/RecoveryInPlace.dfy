// The loops of the recovery engine that work on buffers of their own (src/recovery.c:118-126, 148-153,
// 184-203), each proved against its specification function.
module RecoveryInPlace {
  import opened Bytes
  import opened AnnexB
  import opened RankModels
  import opened RecoverySpec

  /** `start_code`. */
  method FindStartCode(data: seq<byte>, at: nat) returns (pos: nat, prefix: nat)
    ensures (pos, prefix) == StartCode(data, at)
  {
    var i := at;
    while i + 3 < |data|
      invariant StartCode(data, i) == StartCode(data, at)
      decreases |data| - i
    {
      if data[i] == 0 && data[i + 1] == 0 {
        if data[i + 2] == 1 {
          return i, 3;
        }
        if i + 4 < |data| && data[i + 2] == 0 && data[i + 3] == 1 {
          return i, 4;
        }
      }
      i := i + 1;
    }
    return |data|, 0;
  }

  /** Making room in the order for candidate `i`, from place `j` on, is inserting it in front of the places moved. */
  lemma InsertStep(scores: seq<real>, order: seq<nat>, i: nat)
    requires i < |scores| && order != [] && forall k :: 0 <= k < |order| ==> order[k] < |scores|
    ensures var last := order[|order| - 1];
            Insert(scores, order, i) ==
            if scores[last] < scores[i] then Insert(scores, order[..|order| - 1], i) + [last] else order + [i]
  {
  }

  lemma InsertMoved(scores: seq<real>, order: seq<nat>, j: nat, i: nat)
    requires i < |scores| && 0 < j <= |order| && forall k :: 0 <= k < |order| ==> order[k] < |scores|
    requires scores[order[j - 1]] < scores[i]
    ensures Insert(scores, order[..j], i) + order[j..] == Insert(scores, order[..j - 1], i) + order[j - 1..]
  {
    InsertStep(scores, order[..j], i);
    hide Insert;
    assert order[..j][..j - 1] == order[..j - 1] && [order[j - 1]] + order[j..] == order[j - 1..];
    var front := Insert(scores, order[..j - 1], i);
    assert front + [order[j - 1]] + order[j..] == front + ([order[j - 1]] + order[j..]);
  }

  /** The insertion sort of `analyze`, in place in a buffer of 256 places. */
  method RankOrder(scores: seq<real>) returns (order: array<nat>)
    requires |scores| <= MAX_CANDIDATES
    ensures fresh(order) && order.Length == MAX_CANDIDATES
    ensures order[..|scores|] == Order(scores, |scores|)
  {
    order := new nat[MAX_CANDIDATES];
    for i := 0 to |scores|
      invariant order[..i] == Order(scores, i)
    {
      InsertPlace(scores, order, i);
    }
  }

  /** One turn of the sort: moves lower candidates up and puts candidate `i` into the gap. */
  method InsertPlace(scores: seq<real>, order: array<nat>, i: nat)
    requires order.Length == MAX_CANDIDATES && i < |scores| && i < MAX_CANDIDATES
    requires forall k :: 0 <= k < i ==> order[k] < |scores|
    modifies order
    ensures order[..i + 1] == Insert(scores, old(order[..i]), i)
  {
    hide Insert;
    ghost var before := order[..i];
    var j := i;
    assert before[..i] == before && before[i..] == [] && Insert(scores, before, i) + [] == Insert(scores, before, i);
    while j > 0 && scores[order[j - 1]] < scores[i]
      invariant j <= i
      invariant forall k :: 0 <= k < j ==> order[k] == before[k]
      invariant forall k :: j < k <= i ==> order[k] == before[k - 1]
      invariant Insert(scores, before, i) == Insert(scores, before[..j], i) + before[j..]
    {
      InsertMoved(scores, before, j, i);
      order[j] := order[j - 1];
      j := j - 1;
    }
    InsertEnds(scores, before, j, i);
    order[j] := i;
    Assembled(order[..i + 1], before, j, i);
  }

  /** Where the loop stops nothing is left to move. */
  lemma InsertEnds(scores: seq<real>, before: seq<nat>, j: nat, i: nat)
    requires i < |scores| && j <= |before| && forall k :: 0 <= k < |before| ==> before[k] < |scores|
    requires j > 0 ==> scores[before[j - 1]] >= scores[i]
    ensures Insert(scores, before[..j], i) == before[..j] + [i]
  {
    if j > 0 {
      InsertStep(scores, before[..j], i);
    } else {
      InsertFirst(scores, i);
    }
  }

  lemma Assembled(r: seq<nat>, before: seq<nat>, j: nat, i: nat)
    requires |before| == i && j <= i && |r| == i + 1 && r[j] == i
    requires forall k :: 0 <= k < j ==> r[k] == before[k]
    requires forall k :: j < k <= i ==> r[k] == before[k - 1]
    ensures r == before[..j] + [i] + before[j..]
  {
  }

  lemma InsertFirst(scores: seq<real>, i: nat)
    requires i < |scores|
    ensures Insert(scores, [], i) == [i]
  {
  }

  lemma TallyStep(cfg: Config, members: seq<Candidate>, j: nat, pos: nat, v: byte)
    requires j < |members|
    ensures Tally(cfg, members[..j + 1], pos, v) ==
            Tally(cfg, members[..j], pos, v)
            + if pos < members[j].keySize && Ballot(members[j], pos) == v then Weight(cfg, members[j]) else 0.0
  {
    assert members[..j + 1][..j] == members[..j];
  }

  /** The weight of one ballot. */
  method BallotWeight(cfg: Config, c: Candidate) returns (weight: real)
    ensures weight == Weight(cfg, c)
  {
    var base := c.features.score;
    if cfg.model.enabled {
      base := base * 1024.0;
    }
    var raised := Raised(base, c.features.values[PACKET_CONFIDENCE]);
    weight := raised.Floor as real;
    if weight < 1.0 {
      weight := 1.0;
    }
  }

  /** `counts[value] += weight` for every member that reaches the place. */
  method CountBallots(cfg: Config, members: seq<Candidate>, pos: nat) returns (counts: array<real>)
    ensures fresh(counts) && counts.Length == 256
    ensures forall v: byte :: counts[v] == Tally(cfg, members, pos, v)
  {
    hide Weight, Tally;
    counts := new real[256](_ => 0.0);
    NoTally(cfg, members, pos);
    for j := 0 to |members|
      invariant forall v: byte :: counts[v] == Tally(cfg, members[..j], pos, v)
    {
      var other := members[j];
      if pos < other.keySize {
        var value := other.data[other.keyOffset + pos];
        var weight := BallotWeight(cfg, other);
        forall v: byte
          ensures Tally(cfg, members[..j + 1], pos, v) == counts[v] + if v == value then weight else 0.0
        {
          TallyStep(cfg, members, j, pos, v);
        }
        counts[value] := counts[value] + weight;
      } else {
        forall v: byte
          ensures Tally(cfg, members[..j + 1], pos, v) == counts[v]
        {
          TallyStep(cfg, members, j, pos, v);
        }
      }
    }
    assert members[..|members|] == members;
  }

  lemma NoTally(cfg: Config, members: seq<Candidate>, pos: nat)
    ensures forall v: byte :: Tally(cfg, members[..0], pos, v) == 0.0
  {
  }

  /** The vote on one place of the key slice. */
  method VoteByte(cfg: Config, members: seq<Candidate>, pos: nat) returns (best: byte)
    ensures best == VotedByte(cfg, members, pos)
  {
    var counts := CountBallots(cfg, members, pos);
    best := 0;
    var bestWeight := -1.0;
    for j := 0 to |members|
      invariant var leader := Leader(cfg, members, pos, j);
                if leader.None? then best == 0 && bestWeight == -1.0
                else best == leader.value && bestWeight == Tally(cfg, members, pos, leader.value)
    {
      var other := members[j];
      if pos < other.keySize {
        var value := other.data[other.keyOffset + pos];
        if counts[value] > bestWeight {
          best := value;
          bestWeight := counts[value];
        }
      }
    }
  }

  /** The vote on a whole key slice. */
  method VoteSlice(cfg: Config, members: seq<Candidate>, max: nat) returns (slice: seq<byte>)
    requires max == LongestKey(members)
    ensures slice == VotedSlice(cfg, members)
  {
    slice := [];
    for pos := 0 to max
      invariant |slice| == pos
      invariant forall p :: 0 <= p < pos ==> slice[p] == VotedByte(cfg, members, p)
    {
      var best := VoteByte(cfg, members, pos);
      slice := slice + [best];
    }
  }
}
