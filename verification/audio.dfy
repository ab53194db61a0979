/**
 * Audio-cue bookkeeping. Each cue is a record of its paused flag, volume (integer
 * percent: 60 stands for the source's 0.6, 0 for muted) and playback position.
 * The UI click sound is never touched by the game-wide stop, pause and mute loops.
 */
module Audio {
  import opened Wrappers

  /** The keys of the `audio` object, in its declaration order. */
  datatype CueId = StartJazz | MainJazz | Heartbeat | SadJazz | CelebrationMusic | ButtonClick

  const CueOrder: seq<CueId> := [StartJazz, MainJazz, Heartbeat, SadJazz, CelebrationMusic, ButtonClick]

  /** Where a key stands in the registry's order. */
  function Position(k: CueId): (i: nat)
    ensures i < |CueOrder| && CueOrder[i] == k
  {
    match k
    case StartJazz => 0
    case MainJazz => 1
    case Heartbeat => 2
    case SadJazz => 3
    case CelebrationMusic => 4
    case ButtonClick => 5
  }

  /** The entries of the registry's order are distinct: each sits at its own position. */
  lemma PositionsDistinct()
    ensures forall i :: 0 <= i < |CueOrder| ==> Position(CueOrder[i]) == i
  {
  }

  /** Every key of the registry is visited by the loops over it. */
  lemma CueOrderComplete()
    ensures forall k :: k in CueOrder
  {
    forall k: CueId ensures k in CueOrder {
      assert CueOrder[Position(k)] == k;
    }
  }

  /** The base music volume, in percent. */
  const BaseVolume: nat := 60

  datatype Cue = Cue(paused: bool, volume: nat, position: nat)

  /** The volume `playAudio` and `toggleMute` give a music cue. */
  function VolumeFor(muted: bool): nat {
    if muted then 0 else BaseVolume
  }

  /** The cue exists and is audible: present, not the click sound, not paused. */
  predicate Playing(cues: map<CueId, Cue>, k: CueId) {
    k != ButtonClick && k in cues && !cues[k].paused
  }

  /** `stopAllAudio`: every music cue paused and rewound. */
  function StopAll(cues: map<CueId, Cue>): map<CueId, Cue> {
    map k | k in cues :: if k != ButtonClick then cues[k].(paused := true, position := 0) else cues[k]
  }

  /** The stop loop of `closeGame`: every cue, the click sound included, paused and rewound. */
  function HaltAll(cues: map<CueId, Cue>): map<CueId, Cue> {
    map k | k in cues :: cues[k].(paused := true, position := 0)
  }

  /** The cues after `pauseCurrentAudio`: every music cue paused, positions kept. */
  function PauseMusic(cues: map<CueId, Cue>): map<CueId, Cue> {
    map k | k in cues :: if k != ButtonClick then cues[k].(paused := true) else cues[k]
  }

  /** The cue `pauseCurrentAudio` remembers: the last playing one in `order`. */
  function LastPlaying(cues: map<CueId, Cue>, order: seq<CueId>): Option<CueId>
    decreases |order|
  {
    if order == [] then None
    else if Playing(cues, order[|order| - 1]) then Some(order[|order| - 1])
    else LastPlaying(cues, order[..|order| - 1])
  }

  /** `playAudio`: a present cue restarts from the beginning at the volume the mute state gives. */
  function Play(cues: map<CueId, Cue>, key: CueId, muted: bool): map<CueId, Cue> {
    if key in cues then cues[key := Cue(false, VolumeFor(muted), 0)] else cues
  }

  /** The volume loop of `toggleMute`. */
  function SetMusicVolume(cues: map<CueId, Cue>, v: nat): map<CueId, Cue> {
    map k | k in cues :: if k != ButtonClick then cues[k].(volume := v) else cues[k]
  }

  /** Every music cue is at the volume the mute state calls for. */
  predicate VolumesFollowMute(cues: map<CueId, Cue>, muted: bool) {
    forall k :: k in cues && k != ButtonClick ==> cues[k].volume == VolumeFor(muted)
  }

  /**
   * `LastPlaying` is the playing cue that no later cue in the order follows as
   * playing; it is `None` exactly when no music cue is playing.
   */
  lemma {:induction false} LastPlayingSpec(cues: map<CueId, Cue>, order: seq<CueId>)
    ensures LastPlaying(cues, order) == None <==> forall i :: 0 <= i < |order| ==> !Playing(cues, order[i])
    ensures LastPlaying(cues, order).Some? ==>
      exists i :: 0 <= i < |order| && order[i] == LastPlaying(cues, order).value && Playing(cues, order[i])
               && forall j :: i < j < |order| ==> !Playing(cues, order[j])
    decreases |order|
  {
    if order != [] {
      var n := |order| - 1;
      var init := order[..n];
      LastPlayingSpec(cues, init);
      if Playing(cues, order[n]) {
        assert order[n] == LastPlaying(cues, order).value;
      } else {
        assert forall i :: 0 <= i < n ==> order[i] == init[i];
        if LastPlaying(cues, order).Some? {
          var i :| 0 <= i < |init| && init[i] == LastPlaying(cues, init).value && Playing(cues, init[i])
                   && forall j :: i < j < |init| ==> !Playing(cues, init[j]);
          assert forall j :: i < j < |order| ==> !Playing(cues, order[j]);
        }
      }
    }
  }

  /** One more key of the order: it is the last playing one if it plays, else the earlier answer stands. */
  lemma LastPlayingStep(cues: map<CueId, Cue>, order: seq<CueId>, i: nat)
    requires i < |order|
    ensures LastPlaying(cues, order[..i + 1]) ==
      if Playing(cues, order[i]) then Some(order[i]) else LastPlaying(cues, order[..i])
  {
    assert order[..i + 1][..i] == order[..i];
  }

  /** After the pause, nothing is playing, and the remembered cue was playing before. */
  lemma PauseSilences(cues: map<CueId, Cue>)
    ensures forall k :: !Playing(PauseMusic(cues), k)
    ensures LastPlaying(cues, CueOrder).Some? ==> Playing(cues, LastPlaying(cues, CueOrder).value)
    ensures LastPlaying(cues, CueOrder) == None ==> forall k :: !Playing(cues, k)
  {
    LastPlayingSpec(cues, CueOrder);
    CueOrderComplete();
    if LastPlaying(cues, CueOrder) == None {
      forall k ensures !Playing(cues, k) {
        assert CueOrder[Position(k)] == k;
      }
    }
  }

  /** Muting, playing, stopping and pausing keep every music cue at the mute state's volume. */
  lemma VolumesFollowMuteKept(cues: map<CueId, Cue>, muted: bool, key: CueId)
    ensures VolumesFollowMute(SetMusicVolume(cues, VolumeFor(muted)), muted)
    ensures VolumesFollowMute(cues, muted) ==>
      && VolumesFollowMute(Play(cues, key, muted), muted)
      && VolumesFollowMute(StopAll(cues), muted)
      && VolumesFollowMute(PauseMusic(cues), muted)
  {
  }

  /** The audio registry together with the module-level `isMuted` and `pausedAudio`. */
  class Deck {
    var cues: map<CueId, Cue>
    var isMuted: bool
    var pausedAudio: Option<CueId>

    /** The remembered cue is a present music cue. */
    ghost predicate Valid()
      reads this
    {
      pausedAudio.Some? ==> pausedAudio.value in cues && pausedAudio.value != ButtonClick
    }

    /** `present` holds the cues whose audio element exists in the page. */
    constructor (present: map<CueId, Cue>)
      ensures Valid()
      ensures cues == present && !isMuted && pausedAudio == None
    {
      cues, isMuted, pausedAudio := present, false, None;
    }

    /** `stopAllAudio`: the keys are visited one at a time; the result does not depend on their order. */
    method StopAllAudio()
      requires Valid()
      modifies this
      ensures Valid()
      ensures cues == StopAll(old(cues))
      ensures isMuted == old(isMuted) && pausedAudio == old(pausedAudio)
    {
      var m, rest := cues, cues.Keys;
      while rest != {}
        invariant m.Keys == cues.Keys && rest <= cues.Keys
        invariant forall k :: k in m ==>
          m[k] == if k !in rest && k != ButtonClick then cues[k].(paused := true, position := 0) else cues[k]
        decreases rest
      {
        var key :| key in rest;
        if key != ButtonClick {
          m := m[key := m[key].(paused := true, position := 0)];
        }
        rest := rest - {key};
      }
      cues := m;
    }

    /** `pauseCurrentAudio`: pauses every playing music cue and remembers the last one paused. */
    method PauseCurrentAudio()
      requires Valid()
      modifies this
      ensures Valid()
      ensures cues == PauseMusic(old(cues))
      ensures pausedAudio == LastPlaying(old(cues), CueOrder)
      ensures isMuted == old(isMuted)
    {
      var m, p := cues, None;
      ghost var visited: set<CueId> := {};
      PositionsDistinct();
      for i := 0 to |CueOrder|
        invariant m.Keys == cues.Keys
        invariant forall j :: 0 <= j < i ==> CueOrder[j] in visited
        invariant forall j :: i <= j < |CueOrder| ==> CueOrder[j] !in visited
        invariant forall k :: k in m ==>
          m[k] == if k in visited && k != ButtonClick then cues[k].(paused := true) else cues[k]
        invariant p == LastPlaying(cues, CueOrder[..i])
        invariant p.Some? ==> Playing(cues, p.value)
        modifies {}
      {
        var key := CueOrder[i];
        LastPlayingStep(cues, CueOrder, i);
        if key != ButtonClick && key in m && !m[key].paused {
          m := m[key := m[key].(paused := true)];
          p := Some(key);
        }
        visited := visited + {key};
      }
      assert CueOrder[..|CueOrder|] == CueOrder;
      forall k ensures k in visited {
        assert CueOrder[Position(k)] == k;
      }
      cues, pausedAudio := m, p;
    }

    /** `resumePausedAudio`: the remembered cue plays on from where it was, if it is paused. */
    method ResumePausedAudio()
      requires Valid()
      modifies this
      ensures Valid()
      ensures if old(pausedAudio).Some? && old(cues)[old(pausedAudio).value].paused
              then cues == old(cues)[old(pausedAudio).value := old(cues)[old(pausedAudio).value].(paused := false)]
              else cues == old(cues)
      ensures isMuted == old(isMuted) && pausedAudio == old(pausedAudio)
    {
      if pausedAudio.Some? && cues[pausedAudio.value].paused {
        var k := pausedAudio.value;
        cues := cues[k := cues[k].(paused := false)];
      }
    }

    /** `playAudio`: rewinds the cue, sets its volume from the mute state and starts it. */
    method PlayAudio(key: CueId)
      requires Valid()
      modifies this
      ensures Valid()
      ensures cues == Play(old(cues), key, isMuted)
      ensures isMuted == old(isMuted) && pausedAudio == old(pausedAudio)
    {
      if key in cues {
        cues := cues[key := Cue(false, VolumeFor(isMuted), 0)];
      }
    }

    /**
     * `toggleMute`: flips the mute state and sets every music cue to 0 or the base volume,
     * one key at a time in any order.
     */
    method ToggleMute()
      requires Valid()
      modifies this
      ensures Valid()
      ensures isMuted == !old(isMuted)
      ensures cues == SetMusicVolume(old(cues), VolumeFor(isMuted))
      ensures VolumesFollowMute(cues, isMuted)
      ensures pausedAudio == old(pausedAudio)
    {
      isMuted := !isMuted;
      var v := VolumeFor(isMuted);
      var m, rest := cues, cues.Keys;
      while rest != {}
        invariant m.Keys == cues.Keys && rest <= cues.Keys
        invariant forall k :: k in m ==>
          m[k] == if k !in rest && k != ButtonClick then cues[k].(volume := v) else cues[k]
        decreases rest
      {
        var key :| key in rest;
        if key != ButtonClick {
          m := m[key := m[key].(volume := v)];
        }
        rest := rest - {key};
      }
      cues := m;
    }

    /**
     * The audio part of `closeGame`: every cue, the click sound included, paused and
     * rewound, and the remembered cue forgotten.
     */
    method HaltEverything()
      modifies this
      ensures Valid()
      ensures cues == HaltAll(old(cues))
      ensures isMuted == old(isMuted) && pausedAudio == None
    {
      var m, rest := cues, cues.Keys;
      while rest != {}
        invariant m.Keys == cues.Keys && rest <= cues.Keys
        invariant forall k :: k in m ==>
          m[k] == if k !in rest then cues[k].(paused := true, position := 0) else cues[k]
        decreases rest
      {
        var key :| key in rest;
        m := m[key := m[key].(paused := true, position := 0)];
        rest := rest - {key};
      }
      cues := m;
      pausedAudio := None;
    }
  }
}
