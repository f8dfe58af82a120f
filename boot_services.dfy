/** The two boot services the bridge calls while leaving the firmware
    (`get_memory_map`, `exit_boot_services`) and the retry loop
    `exit_from_efi_boot_services` driving them.

    The firmware is a mock: it holds its current memory map and key, and a
    script of the maps its own allocations will produce. Before validating
    each exit request it applies the next scripted change, which also issues
    a new key; the request then succeeds exactly when the key it carries is
    the current one. `get_memory_map` behaves as section 7.2 of the UEFI
    Specification describes GetMemoryMap: the size argument is in/out, a
    buffer offered smaller than the map gets EFI_BUFFER_TOO_SMALL and the
    required size, otherwise the map, its key, stride and version are
    written. */
module BootServices {
  import opened Bytes
  import opened FirmwareAbi
  import opened MemoryMap

  /** One call the bridge made into the firmware, as the firmware saw it. */
  datatype FirmwareCall =
    | GetMemoryMapCall(status: EfiStatus, mapKey: nat)
    | ExitBootServicesCall(imageHandle: EfiHandle, mapKey: nat, status: EfiStatus)

  class EfiBootServicesTable {
    /** The firmware's current memory map, in the bytes it would write. */
    var mapBytes: seq<u8>
    /** The key of the current map. */
    var currentKey: nat
    const descriptorSize: nat
    const descriptorVersion: nat
    /** The maps the firmware's own allocations will produce, one before each exit request. */
    var pendingMaps: seq<seq<u8>>
    var exited: bool
    /** How many times `get_memory_map` was called. */
    var captureCount: nat
    ghost var calls: seq<FirmwareCall>

    constructor (mapBytes: seq<u8>, key: nat, descriptorSize: nat, descriptorVersion: nat, pendingMaps: seq<seq<u8>>)
      ensures this.mapBytes == mapBytes && currentKey == key && this.pendingMaps == pendingMaps
      ensures this.descriptorSize == descriptorSize && this.descriptorVersion == descriptorVersion
      ensures !exited && captureCount == 0 && calls == []
    {
      this.mapBytes := mapBytes;
      currentKey := key;
      this.descriptorSize := descriptorSize;
      this.descriptorVersion := descriptorVersion;
      this.pendingMaps := pendingMaps;
      exited := false;
      captureCount := 0;
      calls := [];
    }

    /** `EfiBootServicesTable::get_memory_map`: the firmware reads the holder's
        size as the room offered and writes the map, the size, the key, the
        stride and the version through the holder's fields, in place. */
    method GetMemoryMap(holder: MemoryMapHolder) returns (status: EfiStatus)
      requires !exited
      requires holder.memoryMapSize <= holder.memoryMapBuffer.Length
      modifies this`captureCount, this`calls, holder, holder.memoryMapBuffer
      ensures captureCount == old(captureCount) + 1
      ensures calls == old(calls) + [GetMemoryMapCall(status, currentKey)]
      ensures holder.memoryMapSize == |mapBytes|
      ensures |mapBytes| <= old(holder.memoryMapSize) ==>
        && status == SUCCESS
        && holder.memoryMapBuffer[..] == mapBytes + old(holder.memoryMapBuffer[..])[|mapBytes|..]
        && holder.mapKey == currentKey
        && holder.descriptorSize == descriptorSize
        && holder.descriptorVersion == descriptorVersion
      ensures |mapBytes| > old(holder.memoryMapSize) ==>
        && status == BUFFER_TOO_SMALL
        && unchanged(holder.memoryMapBuffer)
        && holder.mapKey == old(holder.mapKey)
        && holder.descriptorSize == old(holder.descriptorSize)
        && holder.descriptorVersion == old(holder.descriptorVersion)
    {
      captureCount := captureCount + 1;
      var n := |mapBytes|;
      if n > holder.memoryMapSize {
        status := BUFFER_TOO_SMALL;
      } else {
        forall i | 0 <= i < n {
          holder.memoryMapBuffer[i] := mapBytes[i];
        }
        assert holder.memoryMapBuffer[..] == mapBytes + old(holder.memoryMapBuffer[..])[n..];
        holder.mapKey := currentKey;
        holder.descriptorSize := descriptorSize;
        holder.descriptorVersion := descriptorVersion;
        status := SUCCESS;
      }
      holder.memoryMapSize := n;
      calls := calls + [GetMemoryMapCall(status, currentKey)];
    }

    /** `exit_boot_services(image_handle, map_key)`: first the firmware's own
        pending change, if any, replaces its map and key; then the request
        succeeds exactly when `mapKey` is the current key. */
    method ExitBootServices(imageHandle: EfiHandle, mapKey: nat) returns (status: EfiStatus)
      requires !exited
      modifies this`mapBytes, this`currentKey, this`pendingMaps, this`exited, this`calls
      ensures old(pendingMaps) == [] ==> mapBytes == old(mapBytes) && currentKey == old(currentKey) && pendingMaps == []
      ensures old(pendingMaps) != [] ==>
        mapBytes == old(pendingMaps)[0] && currentKey == old(currentKey) + 1 && pendingMaps == old(pendingMaps)[1..]
      ensures status == if mapKey == currentKey then SUCCESS else INVALID_PARAMETER
      ensures exited <==> status == SUCCESS
      ensures calls == old(calls) + [ExitBootServicesCall(imageHandle, mapKey, status)]
    {
      if pendingMaps != [] {
        mapBytes := pendingMaps[0];
        pendingMaps := pendingMaps[1..];
        currentKey := currentKey + 1;
      }
      if mapKey == currentKey {
        status := SUCCESS;
        exited := true;
      } else {
        status := INVALID_PARAMETER;
      }
      calls := calls + [ExitBootServicesCall(imageHandle, mapKey, status)];
    }
  }

  /** How `exit_from_efi_boot_services` ends: boot services exited, or the
      `assert_eq!` on a failed capture aborted the program. */
  datatype ExitOutcome = Exited | Aborted(status: EfiStatus)

  /** The number of captures a retry loop makes and whether it ends in a successful exit. */
  datatype RetryRun = RetryRun(captures: nat, exits: bool)

  /** Reference semantics of the retry loop against firmware whose current
      map is `current` and whose later maps are `pending`. Each round
      captures with `offered` bytes of room (the holder's size left by the
      previous round, or the full capacity when `reset`); a capture that
      does not fit aborts, and the round with the last map exits. */
  function Rounds(offered: nat, current: seq<u8>, pending: seq<seq<u8>>, reset: bool): RetryRun
    decreases |pending|
  {
    var room := if reset then MEMORY_MAP_BUFFER_SIZE else offered;
    if |current| > room then RetryRun(1, false)
    else if pending == [] then RetryRun(1, true)
    else var rest := Rounds(|current|, pending[0], pending[1..], reset); RetryRun(rest.captures + 1, rest.exits)
  }

  /** A round whose capture fits and whose map is not the last leaves the rest to the next round. */
  lemma RoundsAfterFit(offered: nat, current: seq<u8>, pending: seq<seq<u8>>, reset: bool)
    requires pending != [] && |current| <= (if reset then MEMORY_MAP_BUFFER_SIZE else offered)
    ensures Rounds(offered, current, pending, reset).exits == Rounds(|current|, pending[0], pending[1..], reset).exits
    ensures Rounds(offered, current, pending, reset).captures == Rounds(|current|, pending[0], pending[1..], reset).captures + 1
  {
  }

  /** With the size reset before each capture, the size left by the previous round plays no part. */
  lemma RoundsIgnoreOfferedWhenReset(a: nat, b: nat, current: seq<u8>, pending: seq<seq<u8>>)
    ensures Rounds(a, current, pending, true) == Rounds(b, current, pending, true)
  {
  }

  /** The sizes never grow: the first fits in `offered` and every later map in the one before. */
  ghost predicate SizesNeverGrow(offered: nat, maps: seq<seq<u8>>) {
    && (maps != [] ==> |maps[0]| <= offered)
    && forall i :: 0 < i < |maps| ==> |maps[i]| <= |maps[i - 1]|
  }

  /** As written, the loop exits exactly when no map is larger than the one
      before it (the first no larger than the size offered), and then it
      captures once per map. */
  lemma {:induction false} RoundsAsWritten(offered: nat, current: seq<u8>, pending: seq<seq<u8>>)
    ensures Rounds(offered, current, pending, false).exits <==> SizesNeverGrow(offered, [current] + pending)
    ensures Rounds(offered, current, pending, false).exits ==> Rounds(offered, current, pending, false).captures == 1 + |pending|
    decreases |pending|
  {
    var maps := [current] + pending;
    if pending != [] && |current| <= offered {
      RoundsAsWritten(|current|, pending[0], pending[1..]);
      assert [pending[0]] + pending[1..] == pending;
      if SizesNeverGrow(offered, maps) {
        assert SizesNeverGrow(|current|, pending) by {
          assert maps[1] == pending[0] && maps[0] == current;
          forall i | 0 < i < |pending| ensures |pending[i]| <= |pending[i - 1]| {
            assert pending[i] == maps[i + 1] && pending[i - 1] == maps[i];
          }
        }
      }
      if SizesNeverGrow(|current|, pending) {
        assert maps[1] == pending[0] && maps[0] == current;
        forall i | 0 < i < |maps| ensures |maps[i]| <= |maps[i - 1]| {
          if i > 1 {
            assert maps[i] == pending[i - 1] && maps[i - 1] == pending[i - 2];
          }
        }
      }
    }
  }

  /** With the size reset to the capacity before each capture, the loop exits
      exactly when every map fits in the buffer, and then it captures once per map. */
  lemma {:induction false} RoundsWithReset(offered: nat, current: seq<u8>, pending: seq<seq<u8>>)
    ensures Rounds(offered, current, pending, true).exits <==>
      forall m :: m in [current] + pending ==> |m| <= MEMORY_MAP_BUFFER_SIZE
    ensures Rounds(offered, current, pending, true).exits ==> Rounds(offered, current, pending, true).captures == 1 + |pending|
    decreases |pending|
  {
    if pending != [] && |current| <= MEMORY_MAP_BUFFER_SIZE {
      RoundsWithReset(|current|, pending[0], pending[1..]);
      assert [pending[0]] + pending[1..] == pending;
    }
  }

  /** One round: a successful capture followed by an exit request that carries the key just captured. */
  ghost predicate IsRound(capture: FirmwareCall, exit: FirmwareCall, imageHandle: EfiHandle) {
    && capture.GetMemoryMapCall?
    && capture.status == SUCCESS
    && exit.ExitBootServicesCall?
    && exit.imageHandle == imageHandle
    && exit.mapKey == capture.mapKey
  }

  /** `calls` is a run of rounds whose exit requests all failed. */
  ghost predicate FailedRounds(calls: seq<FirmwareCall>, imageHandle: EfiHandle)
    decreases |calls|
  {
    calls == [] ||
    (&& |calls| >= 2
     && FailedRounds(calls[..|calls| - 2], imageHandle)
     && IsRound(calls[|calls| - 2], calls[|calls| - 1], imageHandle)
     && calls[|calls| - 1].status != SUCCESS)
  }

  /** The calls one run of the retry loop makes: failed rounds, then either a
      round whose exit succeeded or a failed capture. */
  ghost predicate ExitTrace(calls: seq<FirmwareCall>, imageHandle: EfiHandle, outcome: ExitOutcome) {
    match outcome
    case Exited =>
      && |calls| >= 2
      && FailedRounds(calls[..|calls| - 2], imageHandle)
      && IsRound(calls[|calls| - 2], calls[|calls| - 1], imageHandle)
      && calls[|calls| - 1].status == SUCCESS
    case Aborted(status) =>
      && |calls| >= 1
      && FailedRounds(calls[..|calls| - 1], imageHandle)
      && calls[|calls| - 1] == GetMemoryMapCall(status, calls[|calls| - 1].mapKey)
      && status != SUCCESS
  }

  /** A failed round appended to failed rounds is still a run of failed rounds. */
  lemma FailedRoundsGrow(prefix: seq<FirmwareCall>, round: seq<FirmwareCall>, imageHandle: EfiHandle)
    requires FailedRounds(prefix, imageHandle)
    requires |round| == 2 && IsRound(round[0], round[1], imageHandle) && round[1].status != SUCCESS
    ensures FailedRounds(prefix + round, imageHandle)
  {
    var t := prefix + round;
    assert t[..|t| - 2] == prefix;
  }

  /** Failed rounds followed by a round whose exit succeeded trace an exit. */
  lemma ExitedTrace(prefix: seq<FirmwareCall>, round: seq<FirmwareCall>, imageHandle: EfiHandle)
    requires FailedRounds(prefix, imageHandle)
    requires |round| == 2 && IsRound(round[0], round[1], imageHandle) && round[1].status == SUCCESS
    ensures ExitTrace(prefix + round, imageHandle, Exited)
  {
    var t := prefix + round;
    assert t[..|t| - 2] == prefix;
  }

  /** Concatenation of call logs is associative: the step that carries `bs.calls == calls0 + log`
      across a round that appended `round`. */
  lemma LogGrows(before: seq<FirmwareCall>, log: seq<FirmwareCall>, round: seq<FirmwareCall>)
    ensures before + log + round == before + (log + round)
  {
  }

  /** Failed rounds followed by a failed capture trace an abort. */
  lemma AbortedTrace(prefix: seq<FirmwareCall>, status: EfiStatus, key: nat, imageHandle: EfiHandle)
    requires FailedRounds(prefix, imageHandle) && status != SUCCESS
    ensures ExitTrace(prefix + [GetMemoryMapCall(status, key)], imageHandle, Aborted(status))
  {
    var t := prefix + [GetMemoryMapCall(status, key)];
    assert t[..|t| - 1] == prefix;
  }

  /** How one round of the retry loop ends: its capture failed, or the
      firmware answered its exit request. */
  datatype RoundEnd = CaptureFailed(status: EfiStatus) | ExitAnswered(status: EfiStatus)

  /** One round of `exit_from_efi_boot_services`: capture the map into the
      holder; unless that failed, ask to exit with the key just captured. */
  method CaptureAndRequestExit(imageHandle: EfiHandle, bs: EfiBootServicesTable, holder: MemoryMapHolder)
    returns (r: RoundEnd, ghost calls: seq<FirmwareCall>)
    requires !bs.exited
    requires holder.memoryMapSize <= holder.memoryMapBuffer.Length
    modifies bs, holder, holder.memoryMapBuffer
    ensures bs.calls == old(bs.calls) + calls
    ensures bs.captureCount == old(bs.captureCount) + 1
    ensures r.CaptureFailed? <==> |old(bs.mapBytes)| > old(holder.memoryMapSize)
    ensures r.CaptureFailed? ==>
      && r.status == BUFFER_TOO_SMALL
      && calls == [GetMemoryMapCall(BUFFER_TOO_SMALL, old(bs.currentKey))]
      && !bs.exited
      && bs.mapBytes == old(bs.mapBytes) && bs.currentKey == old(bs.currentKey)
      && bs.pendingMaps == old(bs.pendingMaps)
      && holder.memoryMapSize == |old(bs.mapBytes)|
      && unchanged(holder.memoryMapBuffer)
      && holder.mapKey == old(holder.mapKey)
      && holder.descriptorSize == old(holder.descriptorSize)
      && holder.descriptorVersion == old(holder.descriptorVersion)
    ensures r.ExitAnswered? ==>
      && |calls| == 2
      && calls[0] == GetMemoryMapCall(SUCCESS, old(bs.currentKey))
      && IsRound(calls[0], calls[1], imageHandle)
      && calls[1].status == r.status
      && (r.status == SUCCESS <==> old(bs.pendingMaps) == [])
      && (bs.exited <==> r.status == SUCCESS)
      && holder.Holds(old(bs.mapBytes))
      && holder.memoryMapBuffer[|old(bs.mapBytes)|..] == old(holder.memoryMapBuffer[..])[|old(bs.mapBytes)|..]
      && holder.descriptorSize == bs.descriptorSize
      && holder.descriptorVersion == bs.descriptorVersion
      && holder.mapKey == old(bs.currentKey)
      && bs.currentKey == old(bs.currentKey) + (if old(bs.pendingMaps) == [] then 0 else 1)
      && (old(bs.pendingMaps) == [] ==>
            bs.mapBytes == old(bs.mapBytes) && bs.pendingMaps == [] && holder.mapKey == bs.currentKey)
      && (old(bs.pendingMaps) != [] ==>
            bs.mapBytes == old(bs.pendingMaps)[0] && bs.pendingMaps == old(bs.pendingMaps)[1..])
  {
    var status := bs.GetMemoryMap(holder);
    ghost var capture := GetMemoryMapCall(status, bs.currentKey);
    if status != SUCCESS {
      r := CaptureFailed(status);
      calls := [capture];
      return;
    }
    var key := holder.mapKey;
    status := bs.ExitBootServices(imageHandle, key);
    r := ExitAnswered(status);
    calls := [capture, ExitBootServicesCall(imageHandle, key, status)];
  }

  /** `exit_from_efi_boot_services` as written: capture into the same holder,
      abort on a failed capture, request exit with the key just captured,
      and repeat until the request succeeds. The holder's size is not reset
      between rounds. */
  method ExitFromEfiBootServices(imageHandle: EfiHandle, bs: EfiBootServicesTable, holder: MemoryMapHolder)
    returns (outcome: ExitOutcome, ghost log: seq<FirmwareCall>)
    requires !bs.exited
    requires holder.memoryMapSize <= holder.memoryMapBuffer.Length
    modifies bs, holder, holder.memoryMapBuffer
    ensures bs.exited <==> outcome == Exited
    ensures outcome.Aborted? ==> outcome.status == BUFFER_TOO_SMALL
    ensures var run := Rounds(old(holder.memoryMapSize), old(bs.mapBytes), old(bs.pendingMaps), false);
      bs.captureCount == old(bs.captureCount) + run.captures && (outcome == Exited <==> run.exits)
    ensures ExitTrace(log, imageHandle, outcome)
    ensures bs.calls == old(bs.calls) + log
    ensures outcome == Exited ==> holder.mapKey == bs.currentKey && holder.Holds(bs.mapBytes)
    ensures outcome == Exited ==> holder.descriptorSize == bs.descriptorSize && holder.descriptorVersion == bs.descriptorVersion
    ensures outcome == Exited ==>
      && bs.pendingMaps == []
      && bs.currentKey == old(bs.currentKey) + |old(bs.pendingMaps)|
      && bs.mapBytes == (if old(bs.pendingMaps) == [] then old(bs.mapBytes) else old(bs.pendingMaps)[|old(bs.pendingMaps)| - 1])
  {
    log := [];
    ghost var calls0 := bs.calls;
    ghost var count0 := bs.captureCount;
    ghost var run0 := Rounds(holder.memoryMapSize, bs.mapBytes, bs.pendingMaps, false);
    ghost var pm0, mb0, key0 := bs.pendingMaps, bs.mapBytes, bs.currentKey;
    ghost var k: nat := 0;
    while true
      invariant !bs.exited
      invariant holder.memoryMapSize <= holder.memoryMapBuffer.Length
      invariant FailedRounds(log, imageHandle)
      invariant bs.calls == calls0 + log
      invariant k <= |pm0| && bs.pendingMaps == pm0[k..]
      invariant bs.currentKey == key0 + k
      invariant bs.mapBytes == (if k == 0 then mb0 else pm0[k - 1])
      invariant var run := Rounds(holder.memoryMapSize, bs.mapBytes, bs.pendingMaps, false);
        run0.exits == run.exits && run0.captures == bs.captureCount - count0 + run.captures
      decreases |bs.pendingMaps|
    {
      ghost var current := bs.mapBytes;
      ghost var pending := bs.pendingMaps;
      ghost var room := holder.memoryMapSize;
      var r, calls := CaptureAndRequestExit(imageHandle, bs, holder);
      LogGrows(calls0, log, calls);
      if r.CaptureFailed? {
        AbortedTrace(log, r.status, calls[0].mapKey, imageHandle);
        log := log + calls;
        outcome := Aborted(r.status);
        return;
      }
      if r.status == SUCCESS {
        ExitedTrace(log, calls, imageHandle);
        log := log + calls;
        outcome := Exited;
        return;
      }
      FailedRoundsGrow(log, calls, imageHandle);
      log := log + calls;
      RoundsAfterFit(room, current, pending, false);
      k := k + 1;
    }
  }

  /** The loop with the holder's size reset to the buffer capacity before each
      capture, as GetMemoryMap's in/out size argument requires: once before the
      first round and again after every round whose exit request failed. */
  method ExitFromEfiBootServicesResettingSize(imageHandle: EfiHandle, bs: EfiBootServicesTable, holder: MemoryMapHolder)
    returns (outcome: ExitOutcome, ghost log: seq<FirmwareCall>)
    requires !bs.exited
    requires holder.Valid()
    modifies bs, holder, holder.memoryMapBuffer
    ensures bs.exited <==> outcome == Exited
    ensures outcome.Aborted? ==> outcome.status == BUFFER_TOO_SMALL
    ensures var run := Rounds(MEMORY_MAP_BUFFER_SIZE, old(bs.mapBytes), old(bs.pendingMaps), true);
      bs.captureCount == old(bs.captureCount) + run.captures && (outcome == Exited <==> run.exits)
    ensures ExitTrace(log, imageHandle, outcome)
    ensures bs.calls == old(bs.calls) + log
    ensures outcome == Exited ==> holder.mapKey == bs.currentKey && holder.Holds(bs.mapBytes)
    ensures outcome == Exited ==> holder.descriptorSize == bs.descriptorSize && holder.descriptorVersion == bs.descriptorVersion
    ensures outcome == Exited ==>
      && bs.pendingMaps == []
      && bs.currentKey == old(bs.currentKey) + |old(bs.pendingMaps)|
      && bs.mapBytes == (if old(bs.pendingMaps) == [] then old(bs.mapBytes) else old(bs.pendingMaps)[|old(bs.pendingMaps)| - 1])
  {
    log := [];
    ghost var calls0 := bs.calls;
    ghost var count0 := bs.captureCount;
    ghost var run0 := Rounds(MEMORY_MAP_BUFFER_SIZE, bs.mapBytes, bs.pendingMaps, true);
    ghost var pm0, mb0, key0 := bs.pendingMaps, bs.mapBytes, bs.currentKey;
    ghost var k: nat := 0;
    holder.OfferWholeBuffer();
    while true
      invariant !bs.exited
      invariant holder.memoryMapBuffer.Length == MEMORY_MAP_BUFFER_SIZE
      invariant holder.memoryMapSize == MEMORY_MAP_BUFFER_SIZE
      invariant FailedRounds(log, imageHandle)
      invariant bs.calls == calls0 + log
      invariant k <= |pm0| && bs.pendingMaps == pm0[k..]
      invariant bs.currentKey == key0 + k
      invariant bs.mapBytes == (if k == 0 then mb0 else pm0[k - 1])
      invariant var run := Rounds(MEMORY_MAP_BUFFER_SIZE, bs.mapBytes, bs.pendingMaps, true);
        run0.exits == run.exits && run0.captures == bs.captureCount - count0 + run.captures
      decreases |bs.pendingMaps|
    {
      ghost var current := bs.mapBytes;
      ghost var pending := bs.pendingMaps;
      var r, calls := CaptureAndRequestExit(imageHandle, bs, holder);
      LogGrows(calls0, log, calls);
      if r.CaptureFailed? {
        AbortedTrace(log, r.status, calls[0].mapKey, imageHandle);
        log := log + calls;
        outcome := Aborted(r.status);
        return;
      }
      if r.status == SUCCESS {
        ExitedTrace(log, calls, imageHandle);
        log := log + calls;
        outcome := Exited;
        return;
      }
      FailedRoundsGrow(log, calls, imageHandle);
      log := log + calls;
      RoundsAfterFit(MEMORY_MAP_BUFFER_SIZE, current, pending, true);
      assert bs.pendingMaps == pm0[k + 1..] && bs.mapBytes == pm0[k];
      RoundsIgnoreOfferedWhenReset(|current|, MEMORY_MAP_BUFFER_SIZE, bs.mapBytes, bs.pendingMaps);
      holder.OfferWholeBuffer();
      k := k + 1;
    }
  }

  /** Firmware whose exit request fails once on a stale key and then succeeds:
      exactly two captures, and boot services are exited. */
  method StaleKeyOnce() returns (outcome: ExitOutcome, captures: nat)
    ensures outcome == Exited && captures == 2
  {
    var m: seq<u8> := seq(48, _ => 0);
    var bs := new EfiBootServicesTable(m, 1, 48, 1, [m]);
    var holder := new MemoryMapHolder();
    ghost var log;
    outcome, log := ExitFromEfiBootServices(0, bs, holder);
    captures := bs.captureCount;
  }

  /** Firmware whose map grows by one descriptor before the first exit request:
      as written, the retry capture is offered only the previous map's size,
      gets EFI_BUFFER_TOO_SMALL, and the loop aborts after two captures. */
  method GrowingMapAsWritten() returns (outcome: ExitOutcome, captures: nat)
    ensures outcome == Aborted(BUFFER_TOO_SMALL) && captures == 2
  {
    var bs := new EfiBootServicesTable(seq(48, _ => 0), 1, 48, 1, [seq(96, _ => 0)]);
    var holder := new MemoryMapHolder();
    ghost var log;
    outcome, log := ExitFromEfiBootServices(0, bs, holder);
    captures := bs.captureCount;
  }

  /** The same firmware with the size reset before each capture: two captures, then exit. */
  method GrowingMapResettingSize() returns (outcome: ExitOutcome, captures: nat)
    ensures outcome == Exited && captures == 2
  {
    var bs := new EfiBootServicesTable(seq(48, _ => 0), 1, 48, 1, [seq(96, _ => 0)]);
    var holder := new MemoryMapHolder();
    ghost var log;
    outcome, log := ExitFromEfiBootServicesResettingSize(0, bs, holder);
    captures := bs.captureCount;
  }
}
