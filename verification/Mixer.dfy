/**
 The mixer's bookkeeping of playing voices, which must agree with the pool that caps them.
 */
module Mixer {
  // What the audio graph and the device do is decided by the environment.

  import opened Wrappers
  import opened VoicePool

  const U64: nat := 0x1_0000_0000_0000_0000

  type Position = (real, real, real)

  datatype Voice = Voice(looped: bool, position: Option<Position>, importance: Importance, gain: real, committed: bool)

  class Mixer {
    var voices: map<Id, Voice>
    var pool: Pool
    var started: bool
    var nextVoice: nat
    ghost var plays: nat  // how many voices were ever started

    ghost predicate Valid()
      reads this`voices, this`pool, this`nextVoice, this`plays, pool`voices
    {
      && pool.Valid()
      && voices.Keys == pool.Ids()
      && nextVoice == plays % U64
      && forall id <- voices :: id < U64 && id < plays
    }

    constructor (maxVoices: nat)
      ensures Valid() && fresh(pool) && voices == map[] && !started
      ensures pool.capacity == if maxVoices >= 1 then maxVoices else 1
    {
      voices := map[];
      pool := new Pool(maxVoices);
      started := false;
      nextVoice, plays := 0, 0;
    }

    /** Never more voices than the cap. */
    lemma VoicesAreCapped()
      requires Valid()
      ensures |voices| <= pool.capacity
    {
      IdsFit(pool.voices);
      assert |voices| == |voices.Keys|;
    }

    /** The next id is unused until the 64-bit counter has wrapped around. */
    lemma IdsAreFresh()
      requires Valid() && plays < U64
      ensures nextVoice !in voices
    {
    }

    method RemoveVoice(id: Id)
      requires Valid()
      modifies this`voices, pool`voices
      ensures Valid() && voices == old(voices) - {id}
      ensures id !in old(voices) ==> pool.voices == old(pool.voices)
      ensures id in old(voices) ==>
                exists at: nat ::
                    at < |old(pool.voices)| && old(pool.voices)[at].0 == id
                        && pool.voices == SwapRemoved(old(pool.voices), at)
    {
      voices := voices - {id};
      var found := pool.Remove(id);
    }

    method AllocVoiceId() returns (id: Id)
      modifies this`nextVoice
      ensures id == old(nextVoice) && nextVoice == (old(nextVoice) + 1) % U64
    {
      id := nextVoice;
      nextVoice := (nextVoice + 1) % U64;
    }

    /** Opens the output device; if that fails, nothing changes. */
    method Start(deviceOpens: bool) returns (ok: bool)
      requires Valid()
      modifies this`started
      ensures Valid() && ok == deviceOpens && started == (deviceOpens || old(started))
    {
      if deviceOpens {
        started := true;
      }
      return deviceOpens;
    }

    /**
     Starts a voice, unless the device is off, the bus is unknown, the cap refuses it or the graph
     cannot take it.  A voice evicted for it is gone even if the graph then fails.
     */
    method Play(voice: Voice, distance: real, busKnown: bool, graphTakes: bool)
      returns (r: Option<Id>, ghost evicted: Option<nat>)
      requires Valid()
      modifies this`voices, this`nextVoice, this`plays, pool`voices
      ensures evicted.Some?
              <==> started && busKnown && old(pool.IsFull()) && Outranked(old(pool.voices), ScoreOf(voice, distance))
      ensures evicted.Some? ==> IsWeakest(old(pool.voices), evicted.value)
      ensures Valid() <==> r.None? || old(nextVoice) !in old(voices)
                           || (evicted.Some? && old(pool.voices)[evicted.value].0 == old(nextVoice))
      ensures r.Some? <==> started && busKnown && graphTakes && (evicted.Some? || !old(pool.IsFull()))
      ensures r.Some? ==> r.value == old(nextVoice)
      ensures var left := if evicted.Some? then old(voices) - {old(pool.voices)[evicted.value].0} else old(voices);
              voices == if r.Some? then left[r.value := voice.(committed := false)] else left
      ensures var left := if evicted.Some? then SwapRemoved(old(pool.voices), evicted.value) else old(pool.voices);
              pool.voices == if r.Some? then left + [(r.value, ScoreOf(voice, distance))] else left
    {
      evicted := None;
      if !started || !busKnown {
        return None, evicted;
      }
      var score := ScoreOf(voice, distance);
      var d, at := pool.Consider(score);
      if d.Reject? {
        assert !Outranked(pool.voices, score);
        return None, evicted;
      }
      if d.Evict? {
        evicted := Some(at);
        MakeRoom(d.id, at);
      }
      if !graphTakes {
        return None, evicted;
      }
      r := Record(voice, score);
    }

    /** Stops a voice of the pool, which is then not full. */
    method MakeRoom(id: Id, ghost at: nat)
      requires Valid() && at < |pool.voices| && pool.voices[at].0 == id
      modifies this`voices, pool`voices
      ensures Valid() && !pool.IsFull() && pool.voices == SwapRemoved(old(pool.voices), at)
      ensures voices == old(voices) - {id}
    {
      assert pool.voices[at] in pool.voices;
      RemoveVoice(id);
      assert forall k: nat | k < |old(pool.voices)| && old(pool.voices)[k].0 == id :: k == at;
    }

    /** Gives the voice the next id and records it in both places. */
    method Record(voice: Voice, score: real) returns (r: Option<Id>)
      requires Valid() && !pool.IsFull()
      modifies this`voices, this`nextVoice, this`plays, pool`voices
      ensures Valid() <==> old(nextVoice) !in old(voices)
      ensures r == Some(old(nextVoice))
      ensures voices == old(voices)[r.value := voice.(committed := false)]
      ensures pool.voices == old(pool.voices) + [(r.value, score)]
    {
      var id := AllocVoiceId();
      plays := plays + 1;
      AddedAgrees(voices, pool.voices, id, voice.(committed := false), score);
      ghost var gone := pool.Insert(id, score);
      voices := voices[id := voice.(committed := false)];
      return Some(id);
    }

    method StopVoice(id: Id)
      requires Valid()
      modifies this`voices, pool`voices
      ensures Valid() && voices == old(voices) - {id}
    {
      RemoveVoice(id);
    }

    method SetVoicePosition(id: Id, position: Position)
      requires Valid()
      modifies this`voices
      ensures Valid()
      ensures voices == if id in old(voices) then old(voices)[id := old(voices)[id].(position := Some(position))]
          else old(voices)
    {
      if id in voices {
        voices := voices[id := voices[id].(position := Some(position))];
      }
    }

    /** A voice keeps its score: the gain only counts again when the voice is rescored. */
    method SetVoiceGain(id: Id, gain: real)
      requires Valid()
      modifies this`voices
      ensures Valid()
      ensures voices == if id in old(voices) then old(voices)[id := Regained(old(voices)[id], gain)] else old(voices)
    {
      if id in voices {
        voices := voices[id := Regained(voices[id], gain)];
      }
    }

    /** Removes the committed one-shots that finished. */
    method ReapFinished(finished: set<Id>)
      requires Valid()
      modifies this`voices, pool`voices
      ensures Valid() && voices == old(voices) - Reapable(old(voices), finished)
      ensures forall id :: id in voices <==> id in old(voices) && Stays(old(voices)[id], id in finished)
    {
      var left := set id | id in voices && id in finished && voices[id].committed && !voices[id].looped;
      assert left == Reapable(old(voices), finished);
      while left != {}
        invariant Valid() && pool == old(pool) && left <= Reapable(old(voices), finished)
        invariant voices == old(voices) - (Reapable(old(voices), finished) - left)
        decreases |left|
      {
        var id :| id in left;
        RemoveVoice(id);
        left := left - {id};
      }
    }

    /** Scores every placed voice anew, from where the listener hears it now. */
    method UpdateSpatial(distance: Position -> real)
      requires Valid()
      modifies pool`voices
      ensures Valid() && pool.voices == Rescored(voices, distance, old(pool.voices), voices.Keys)
      ensures forall k: nat | k < |pool.voices| ::
                && pool.voices[k].0 == old(pool.voices)[k].0 && pool.voices[k].0 in voices
                && var v := voices[pool.voices[k].0];
                   pool.voices[k].1 == if v.position.Some? then ScoreOf(v, distance(v.position.value))
                                       else old(pool.voices)[k].1
    {
      RescoreAll(pool, voices, distance);
      forall k: nat | k < |pool.voices| ensures old(pool.voices)[k].0 in voices {
        assert old(pool.voices)[k] in old(pool.voices);
      }
    }

    /** Starts over on another device: the clip voices are dropped, the cap stays. */
    method RebuildAndRestart(graphBuilt: bool, deviceOpens: bool) returns (ok: bool)
      requires Valid()
      modifies this`voices, this`pool, this`started
      ensures Valid() && (pool == old(pool) || fresh(pool)) && pool.capacity == old(pool.capacity)
      ensures ok == (graphBuilt && deviceOpens)
      ensures if graphBuilt then voices == map[] && started == deviceOpens
          else voices == old(voices) && started == old(started)
    {
      if !graphBuilt {
        return false;
      }
      voices := map[];
      pool := new Pool(pool.capacity);
      started := deviceOpens;
      return deviceOpens;
    }

    /** Rescores, reaps, and marks every voice as committed. */
    method Refresh(distance: Position -> real, finished: set<Id>)
      requires Valid()
      modifies this`voices, pool`voices
      ensures Valid() && voices.Keys == old(voices).Keys - Reapable(old(voices), finished)
      ensures forall id :: id in voices <==> id in old(voices) && Stays(old(voices)[id], id in finished)
      ensures forall id <- voices :: voices[id] == old(voices)[id].(committed := true)
    {
      UpdateSpatial(distance);
      ReapFinished(finished);
      voices := map id | id in voices :: voices[id].(committed := true);
    }

    /** Once a frame: starts over if the device is lost, then refreshes the voices. */
    method Update(lost: bool, graphBuilt: bool, deviceOpens: bool, distance: Position -> real, finished: set<Id>)
      requires Valid()
      modifies this`voices, this`pool, this`started, pool`voices
      ensures Valid() && pool.capacity == old(pool.capacity)
      ensures old(started) && lost && graphBuilt ==> voices == map[] && started == deviceOpens
      ensures !(old(started) && lost && graphBuilt) ==>
                && started == old(started)
                && (forall id :: id in voices <==> id in old(voices) && Stays(old(voices)[id], id in finished))
                && forall id <- voices :: voices[id] == old(voices)[id].(committed := true)
    {
      if started && lost {
        var ok := RebuildAndRestart(graphBuilt, deviceOpens);
      }
      Refresh(distance, finished);
    }
  }

  /** The map and the pool hold the same voices, each once. */
  ghost predicate Agree(voices: map<Id, Voice>, entries: seq<Entry>) {
    DistinctIds(entries) && voices.Keys == IdsOf(entries)
  }

  /** A new voice keeps them so exactly if its id is not that of a voice still playing. */
  lemma AddedAgrees(voices: map<Id, Voice>, entries: seq<Entry>, id: Id, voice: Voice, score: real)
    requires Agree(voices, entries)
    ensures Agree(voices[id := voice], entries + [(id, score)]) <==> id !in voices
  {
    var more := entries + [(id, score)];
    if id in voices {
      assert id in IdsOf(entries);
      var k :| 0 <= k < |entries| && entries[k].0 == id;
      assert more[k].0 == more[|entries|].0;
    } else {
      assert IdsOf(more) == IdsOf(entries) + {id};
      assert forall k | 0 <= k < |entries| :: entries[k].0 in IdsOf(entries);
    }
  }

  /** The counter is back at zero and voice zero still plays: the next voice replaces it in the map
      and stands beside it in the pool, where one entry is left once it is stopped. */
  lemma WrappedIdStaysInPool(lasting: Voice, voice: Voice, a: real, b: real)
    ensures var voices, entries := map[0 := lasting], [(0, a)];
            var more := entries + [(0, b)];
            && U64 % U64 == 0 && Agree(voices, entries) && !Agree(voices[0 := voice], more)
            && voices[0 := voice] - {0} == map[] && IdsOf(SwapRemoved(more, 0)) == {0}
  {
    var entries := [(0, a)];
    assert entries[0].0 in IdsOf(entries);
    AddedAgrees(map[0 := lasting], entries, 0, voice, b);
    assert SwapRemoved(entries + [(0, b)], 0) == [(0, b)];
    assert [(0, b)][0].0 in IdsOf([(0, b)]);
  }

  const EPSILON: real := 1.0 / 8388608.0

  /** The voice with another gain, unless it is nearly the one it has. */
  function Regained(v: Voice, gain: real): Voice {
    var g := Clamp(gain);
    if -EPSILON < v.gain - g < EPSILON then v else v.(gain := g)
  }

  /** A voice that has not finished stays, as do one not yet committed and one that loops. */
  predicate Stays(v: Voice, finished: bool) { !finished || !v.committed || v.looped }

  /** A gain is set to the nearest from zero to one, or left as it is if it is that already but for 1/8388608. */
  lemma RegainedMeans(v: Voice, gain: real)
    ensures var r, g := Regained(v, gain), if gain <= 0.0 then 0.0 else if gain >= 1.0 then 1.0 else gain;
            && r == v.(gain := r.gain) && (r.gain == g || r.gain == v.gain)
            && (r.gain != g ==> -1.0 < 8388608.0 * (v.gain - g) < 1.0)
  {
  }

  function Reapable(voices: map<Id, Voice>, finished: set<Id>): set<Id> {
    set id | id in voices && id in finished && voices[id].committed && !voices[id].looped
  }

  function ScoreOf(v: Voice, distance: real): real {
    Score(SoundPriority(v.importance, v.gain, if v.position.Some? then distance else 0.0))
  }

  /** A hundred for each tier, the gain up to one, and one at the ear, a half at ten metres and less further away.
      A voice without a place is heard at the ear. */
  lemma ScoreIs(v: Voice, distance: real)
    ensures var d := if v.position.None? || distance <= 0.0 then 0.0 else distance;
            var gain := if v.gain <= 0.0 then 0.0 else if v.gain >= 1.0 then 1.0 else v.gain;
            (ScoreOf(v, distance) - 100.0 * Tier(v.importance) as real - gain) * (10.0 + d) == 10.0
  {
    var d := if v.position.None? || distance <= 0.0 then 0.0 else distance;
    ProximityIs(d);
  }

  lemma ProximityIs(d: real)
    requires d >= 0.0
    ensures Proximity(d) * (10.0 + d) == 10.0
  {
    var n := 1.0 + d / 10.0;
    assert 10.0 * n == 10.0 + d;
    assert Proximity(d) * n == 1.0;
    assert Proximity(d) * (10.0 * n) == 10.0 * (Proximity(d) * n);
  }

  /** Some voice scores lower. */
  predicate Outranked(entries: seq<Entry>, score: real) {
    exists k :: 0 <= k < |entries| && entries[k].1 < score
  }

  /** The entries with the voices among `ids` scored from where they are. */
  function Rescored(voices: map<Id, Voice>, distance: Position -> real, entries: seq<Entry>,
                    ids: set<Id>): (r: seq<Entry>)
    ensures |r| == |entries|
    ensures forall k | 0 <= k < |r| :: r[k] == RescoredEntry(voices, distance, entries[k], ids)
  {
    seq(|entries|, k requires 0 <= k < |entries| => RescoredEntry(voices, distance, entries[k], ids))
  }

  function RescoredEntry(voices: map<Id, Voice>, distance: Position -> real, e: Entry, ids: set<Id>): Entry {
    if e.0 in ids && e.0 in voices && voices[e.0].position.Some?
        then (e.0, ScoreOf(voices[e.0], distance(voices[e.0].position.value)))
    else e
  }

  lemma RescoredNone(voices: map<Id, Voice>, distance: Position -> real, entries: seq<Entry>)
    ensures Rescored(voices, distance, entries, {}) == entries
    ensures voices.Keys - voices.Keys == {}
  {
  }

  lemma RescoredOne(voices: map<Id, Voice>, distance: Position -> real, entries: seq<Entry>, ids: set<Id>, id: Id,
                    after: seq<Entry>)
    requires id in voices && |after| == |entries|
    requires var now := Rescored(voices, distance, entries, ids);
             if voices[id].position.None? then after == now
             else forall k | 0 <= k < |after| ::
                    after[k] == if now[k].0 == id then (id, ScoreOf(voices[id], distance(voices[id].position.value)))
                        else now[k]
    ensures after == Rescored(voices, distance, entries, ids + {id})
  {
  }

  method RescoreVoice(pool: Pool, id: Id, v: Voice, distance: Position -> real)
    requires pool.Valid()
    modifies pool`voices
    ensures pool.Valid() && pool.Ids() == old(pool.Ids()) && |pool.voices| == |old(pool.voices)|
    ensures v.position.None? ==> pool.voices == old(pool.voices)
    ensures v.position.Some? ==> forall k | 0 <= k < |pool.voices| ::
              pool.voices[k] == if old(pool.voices)[k].0 == id then (id, ScoreOf(v, distance(v.position.value)))
                  else old(pool.voices)[k]
  {
    if v.position.Some? {
      pool.Reprioritize(id, ScoreOf(v, distance(v.position.value)));
    }
  }

  method RescoreAll(pool: Pool, voices: map<Id, Voice>, distance: Position -> real)
    requires pool.Valid()
    modifies pool`voices
    ensures pool.Valid() && pool.Ids() == old(pool.Ids())
    ensures pool.voices == Rescored(voices, distance, old(pool.voices), voices.Keys)
  {
    var left := voices.Keys;
    ghost var before, done := pool.voices, {};
    RescoredNone(voices, distance, before);
    while left != {}
      invariant pool.Valid() && pool.Ids() == old(pool.Ids()) && done + left == voices.Keys
      invariant pool.voices == Rescored(voices, distance, before, done)
      decreases |left|
    {
      var id :| id in left;
      RescoreVoice(pool, id, voices[id], distance);
      RescoredOne(voices, distance, before, done, id, pool.voices);
      left, done := left - {id}, done + {id};
    }
    assert done + {} == done;
  }

  lemma {:induction false} IdsFit(entries: seq<Entry>)
    requires DistinctIds(entries)
    ensures |IdsOf(entries)| == |entries|
  {
    if entries != [] {
      var n := |entries| - 1;
      IdsFit(entries[..n]);
      assert entries == entries[..n] + [entries[n]];
      assert IdsOf(entries) == IdsOf(entries[..n]) + {entries[n].0};
      assert entries[n].0 !in IdsOf(entries[..n]);
    }
  }
}
