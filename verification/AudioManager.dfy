/** client/components/audio_manager/audio_manager.c: acquiring and releasing the pipeline, with a
    failure possible at every acquisition. */
module AudioManager {
  import opened Wrappers

  type StreamId = nat
  type Handle = nat

  const NULL: Handle := 0

  datatype Err = ESP_OK | ESP_ERR_INVALID_ARG | ESP_ERR_INVALID_STATE | ESP_ERR_NO_MEM | ESP_FAIL

  datatype Params = Params(
    streamId: StreamId, sampleRate: nat, channels: nat, frameMs: nat, destIp: string, destPort: nat)

  /** What rtp_sender_start and opus_task_start can return; i2s_capture_start can also pass on an error
      of its driver. */
  type StartErr = e: Err | e != ESP_ERR_INVALID_STATE witness ESP_OK

  /** What the system answers to the five allocations and the three task starts; the handles it gives out
      for them are the eight after base. */
  datatype Answers = Answers(
    base: Handle, ring: bool, arena: bool, lengths: bool, ringLock: bool, queueLock: bool,
    rtp: StartErr, opus: StartErr, i2s: Err)

  predicate StorageGiven(a: Answers) {
    a.ring && a.arena && a.lengths && a.ringLock && a.queueLock
  }

  /** Everything asked for was given. */
  predicate AllGiven(a: Answers) {
    StorageGiven(a) && a.rtp == ESP_OK && a.opus == ESP_OK && a.i2s == ESP_OK
  }

  /** Everything but capture, which failed with the code that also means "already streaming". */
  predicate CaptureInvalidState(a: Answers) {
    StorageGiven(a) && a.rtp == ESP_OK && a.opus == ESP_OK && a.i2s == ESP_ERR_INVALID_STATE
  }

  function Validate(p: Params): Err {
    if p.sampleRate != 48000 then ESP_ERR_INVALID_ARG
    else if p.channels != 2 then ESP_ERR_INVALID_ARG
    else if p.frameMs != 20 then ESP_ERR_INVALID_ARG
    else if p.destIp == "" || p.destPort == 0 then ESP_ERR_INVALID_ARG
    else ESP_OK
  }

  /** The result of a start, from the stream that is running, if any. */
  function StartResult(inited: bool, stream: Option<StreamId>, p: Params, a: Answers): Err {
    if !inited then ESP_ERR_INVALID_ARG
    else if stream.Some? then ESP_ERR_INVALID_STATE
    else if Validate(p) != ESP_OK then Validate(p)
    else if !StorageGiven(a) then ESP_ERR_NO_MEM
    else if a.rtp != ESP_OK then a.rtp
    else if a.opus != ESP_OK then a.opus
    else a.i2s
  }

  /** 48 kHz stereo in frames of 20 ms, to some address. */
  predicate ValidParams(p: Params) {
    p.sampleRate == 48000 && p.channels == 2 && p.frameMs == 20 && p.destIp != "" && p.destPort != 0
  }

  /** What each stage of a start gives, in order: initialisation, no running stream, the parameters, storage,
      the sender, the encoder, capture. */
  function Stages(inited: bool, stream: Option<StreamId>, p: Params, a: Answers): (rs: seq<Err>)
    ensures |rs| == 7
  {
    [if inited then ESP_OK else ESP_ERR_INVALID_ARG,
     if stream.None? then ESP_OK else ESP_ERR_INVALID_STATE,
     if ValidParams(p) then ESP_OK else ESP_ERR_INVALID_ARG,
     if a.ring && a.arena && a.lengths && a.ringLock && a.queueLock then ESP_OK else ESP_ERR_NO_MEM,
     a.rtp, a.opus, a.i2s]
  }

  predicate FailsAt(rs: seq<Err>, k: nat) {
    k < |rs| && rs[k] != ESP_OK && forall j :: 0 <= j < k ==> rs[j] == ESP_OK
  }

  /** A start fails with the error of the first stage that fails, and succeeds when none does. */
  lemma StartFailsAtFirst(inited: bool, stream: Option<StreamId>, p: Params, a: Answers)
    ensures var rs, e := Stages(inited, stream, p, a), StartResult(inited, stream, p, a);
            if e == ESP_OK then forall k :: 0 <= k < 7 ==> rs[k] == ESP_OK
            else exists k: nat :: FailsAt(rs, k) && e == rs[k]
  {
    var rs := Stages(inited, stream, p, a);
    var k := if !inited then 0 else if stream.Some? then 1 else if !ValidParams(p) then 2
             else if !StorageGiven(a) then 3 else if a.rtp != ESP_OK then 4 else if a.opus != ESP_OK then 5 else 6;
    assert StartResult(inited, stream, p, a) == rs[k];
    assert forall j :: 0 <= j < k ==> rs[j] == ESP_OK;
    assert rs[k] != ESP_OK ==> FailsAt(rs, k);
  }

  function StartStream(stream: Option<StreamId>, p: Params, err: Err): Option<StreamId> {
    if err == ESP_OK then Some(p.streamId) else stream
  }

  class AudioManager {
    var inited: bool
    var streaming: bool
    var streamId: StreamId
    var ringStorage: Handle
    var eqArena: Handle
    var eqLengths: Handle
    var ringLock: Handle
    var queueLock: Handle
    var i2s: Handle
    var opus: Handle
    var rtp: Handle
    var streamSeq: nat

    ghost var held: set<Handle>  // given out by the system and not given back

    ghost function Stream(): Option<StreamId>
      reads this
    {
      if streaming then Some(streamId) else None
    }

    ghost predicate Storage()
      reads this
    {
      && ringStorage != NULL && eqArena != NULL && eqLengths != NULL && ringLock != NULL && queueLock != NULL
      && ringStorage < eqArena < eqLengths < ringLock < queueLock
    }

    ghost function StorageHandles(): set<Handle>
      reads this
    {
      {ringStorage, eqArena, eqLengths, ringLock, queueLock} - {NULL}
    }

    ghost predicate UpTo(top: Handle)
      reads this
    {
      ringStorage <= top && eqArena <= top && eqLengths <= top && ringLock <= top && queueLock <= top
    }

    /** All eight resources held while streaming, none otherwise, and nothing else. */
    ghost predicate Valid()
      reads this
    {
      if streaming then
        && Storage() && queueLock < rtp < opus < i2s
        && held == StorageHandles() + {rtp, opus, i2s}
      else
        && ringStorage == eqArena == eqLengths == ringLock == queueLock == NULL && i2s == opus == rtp == NULL
        && held == {}
    }

    constructor ()
      ensures Valid() && inited && !streaming && streamSeq == 0
    {
      inited, streaming, streamId, streamSeq := true, false, 0, 0;
      ringStorage, eqArena, eqLengths, ringLock, queueLock := NULL, NULL, NULL, NULL, NULL;
      i2s, opus, rtp := NULL, NULL, NULL;
      held := {};
    }

    /** The system gives out this handle, or none. */
    method Acquire(ok: bool, given: Handle) returns (h: Handle)
      requires given != NULL && given !in held
      modifies this`held
      ensures if ok then h == given && held == old(held) + {h} else h == NULL && held == old(held)
    {
      h := NULL;
      if ok {
        h := given;
        held := held + {h};
      }
    }

    /** Only a handle that is held can be given back, so nothing is released twice. */
    method Release(h: Handle)
      requires h in held
      modifies this`held
      ensures held == old(held) - {h}
    {
      held := held - {h};
    }

    /** No handle is in two storage fields. */
    ghost predicate Distinct()
      reads this
    {
      && (ringStorage != NULL ==> ringStorage !in {eqArena, eqLengths, ringLock, queueLock})
      && (eqArena != NULL ==> eqArena !in {eqLengths, ringLock, queueLock})
      && (eqLengths != NULL ==> eqLengths !in {ringLock, queueLock})
      && (ringLock != NULL ==> ringLock != queueLock)
    }

    /** No task may be running on the storage when it goes. */
    method FreeStorage()
      requires i2s == opus == rtp == NULL && held == StorageHandles() && Distinct()
      modifies this`ringStorage, this`eqArena, this`eqLengths, this`ringLock, this`queueLock, this`held
      ensures ringStorage == eqArena == eqLengths == ringLock == queueLock == NULL && held == {}
    {
      if ringStorage != NULL { Release(ringStorage); ringStorage := NULL; }
      if eqArena != NULL { Release(eqArena); eqArena := NULL; }
      if eqLengths != NULL { Release(eqLengths); eqLengths := NULL; }
      if ringLock != NULL { Release(ringLock); ringLock := NULL; }
      if queueLock != NULL { Release(queueLock); queueLock := NULL; }
    }

    /** All five acquisitions are tried, whichever fail. */
    method AllocStorage(a: Answers) returns (ok: bool)
      requires held == {}
      modifies this`ringStorage, this`eqArena, this`eqLengths, this`ringLock, this`queueLock, this`held
      ensures held == StorageHandles() && Distinct() && UpTo(a.base + 5)
      ensures ok == StorageGiven(a) && (ok ==> Storage())
    {
      ringStorage := Acquire(a.ring, a.base + 1);
      eqArena := Acquire(a.arena, a.base + 2);
      eqLengths := Acquire(a.lengths, a.base + 3);
      ringLock := Acquire(a.ringLock, a.base + 4);
      queueLock := Acquire(a.queueLock, a.base + 5);
      return ringStorage != NULL && eqArena != NULL && eqLengths != NULL && ringLock != NULL && queueLock != NULL;
    }

    /** Every outcome leaves all resources held or none, and a stream running exactly on success. */
    method Start(p: Params, a: Answers) returns (err: Err)
      requires Valid()
      modifies this
      ensures Valid() && inited == old(inited)
      ensures err == StartResult(inited, old(Stream()), p, a)
      ensures Stream() == StartStream(old(Stream()), p, err)
    {
      if !inited { return ESP_ERR_INVALID_ARG; }
      if streaming { return ESP_ERR_INVALID_STATE; }
      err := Validate(p);
      if err != ESP_OK { return; }

      var ok := AllocStorage(a);
      if !ok {
        FreeStorage();
        return ESP_ERR_NO_MEM;
      }
      streamSeq := streamSeq + 1;
      err := StartTasks(a);
      if err != ESP_OK { return; }
      streaming := true;
      streamId := p.streamId;
    }

    /** The send stage first, then the encoder, then capture. */
    method StartTasks(a: Answers) returns (err: Err)
      requires !streaming && Storage() && held == StorageHandles() && i2s == opus == rtp == NULL
      requires UpTo(a.base + 5)
      modifies this`rtp, this`opus, this`i2s, this`held,
               this`ringStorage, this`eqArena, this`eqLengths, this`ringLock, this`queueLock
      ensures err == if a.rtp != ESP_OK then a.rtp else if a.opus != ESP_OK then a.opus else a.i2s
      ensures if err == ESP_OK then Storage() && queueLock < rtp < opus < i2s
                   && held == StorageHandles() + {rtp, opus, i2s}
              else Valid()
    {
      rtp := Acquire(a.rtp == ESP_OK, a.base + 6);
      if rtp == NULL { FreeStorage(); return a.rtp; }
      opus := Acquire(a.opus == ESP_OK, a.base + 7);
      if opus == NULL {
        Release(rtp);
        rtp := NULL;
        FreeStorage();
        return a.opus;
      }
      i2s := Acquire(a.i2s == ESP_OK, a.base + 8);
      if i2s == NULL {
        Release(opus);
        opus := NULL;
        Release(rtp);
        rtp := NULL;
        FreeStorage();
      }
      return a.i2s;
    }

    /** Capture first, then the encoder, then the sender; idempotent. */
    method Stop()
      requires Valid()
      modifies this
      ensures Valid() && inited == old(inited) && !streaming && held == {}
    {
      if !streaming { return; }
      if i2s != NULL { Release(i2s); i2s := NULL; }
      if opus != NULL { Release(opus); opus := NULL; }
      if rtp != NULL { Release(rtp); rtp := NULL; }
      FreeStorage();
      streaming := false;
      streamId := 0;
    }
  }
}
