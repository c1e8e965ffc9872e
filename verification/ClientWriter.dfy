/**
 client_write_retry::writeAll and the BufferedClientPrint above it, over any
 client that takes at most what it is offered and any clock.
 */
module ClientWriter {
  import opened Bytes
  import opened Sequences

  datatype Config = Config(maxZeroWriteRetries: nat, maxWriteWindowMs: nat, backoffStartMs: nat, backoffMaxMs: nat) {
    /** uint8_t and uint16_t fields. */
    predicate InRange() {
      && maxZeroWriteRetries < 0x100 && maxWriteWindowMs < 0x1_0000
      && backoffStartMs < 0x1_0000 && backoffMaxMs < 0x1_0000
    }
  }

  const DEFAULT_CONFIG: Config := Config(2, 2500, 1, 16)

  /** One write: how much the client took, and the time since the call began when it returned. */
  datatype Attempt = Attempt(written: nat, elapsed: nat)

  /** The network client: it records what it took, in order. */
  class Client {
    var delivered: seq<byte>
    var stopped: bool
    ghost var log: seq<Attempt>

    /** How much is taken is up to the client; the clock is read after it. */
    method Write(data: seq<byte>) returns (written: nat, elapsed: nat)
      modifies `delivered, `log
      ensures written <= |data| && delivered == old(delivered) + data[..written] && elapsed < TWO_32
      ensures log == old(log) + [Attempt(written, elapsed)]
    {
      written :| written <= |data|;
      elapsed :| elapsed < TWO_32;
      delivered := delivered + data[..written];
      log := log + [Attempt(written, elapsed)];
    }

    method Stop()
      modifies `stopped
      ensures stopped
    {
      stopped := true;
    }
  }

  // ------------------------------------------------- when a call may give up

  function Taken(answers: seq<Attempt>): nat {
    if answers == [] then 0 else Taken(answers[..|answers| - 1]) + answers[|answers| - 1].written
  }

  /** The length of the run of zero-length writes at the end. */
  function Zeros(answers: seq<Attempt>): nat {
    if answers == [] || answers[|answers| - 1].written != 0 then 0 else 1 + Zeros(answers[..|answers| - 1])
  }

  /** The retries are used up, or the window is. */
  predicate Exhausted(answers: seq<Attempt>, cfg: Config) {
    answers != [] &&
    (Zeros(answers) > cfg.maxZeroWriteRetries ||
     (cfg.maxWriteWindowMs > 0 && answers[|answers| - 1].elapsed >= cfg.maxWriteWindowMs))
  }

  /** Bytes were left at every earlier answer, and at none of these answers was it time to give up. */
  predicate Persists(answers: seq<Attempt>, size: nat, cfg: Config) {
    answers == [] ||
    (var front := answers[..|answers| - 1];
     Persists(front, size, cfg) && Taken(front) < size && (Taken(answers) < size ==> !Exhausted(answers, cfg)))
  }

  /** The last answer, and no earlier one, was reason to give up with bytes left. */
  predicate GivesUp(answers: seq<Attempt>, size: nat, cfg: Config) {
    && answers != [] && Persists(answers[..|answers| - 1], size, cfg)
    && Taken(answers) < size && Exhausted(answers, cfg)
  }

  // ------------------------------------------------------------------ pauses

  /** static_cast<uint16_t>(backoff * 2), limited by the maximum. */
  function NextBackoff(backoff: nat, cfg: Config): nat {
    if backoff < cfg.backoffMaxMs then
      var doubled := (backoff * 2) % 0x1_0000;
      if doubled > cfg.backoffMaxMs then cfg.backoffMaxMs else doubled
    else backoff
  }

  /** The step is doubling up to the maximum exactly while the double fits 16 bits. */
  lemma BackoffDoubles(backoff: nat, cfg: Config)
    requires cfg.InRange() && backoff < cfg.backoffMaxMs
    ensures NextBackoff(backoff, cfg) == Min(2 * backoff, cfg.backoffMaxMs) <==> 2 * backoff < 0x1_0000
  {
    if 2 * backoff >= 0x1_0000 { assert (2 * backoff) % 0x1_0000 == 2 * backoff - 0x1_0000; }
  }

  /** The backoff at the k-th zero-length write in a row. */
  function Backoff(k: nat, cfg: Config): nat {
    if k <= 1 then cfg.backoffStartMs else NextBackoff(Backoff(k - 1, cfg), cfg)
  }

  /** The pause asked for after these answers, the last of them zero: bounded by what is left of the window. */
  function Pause(answers: seq<Attempt>, cfg: Config): nat {
    var backoff := Backoff(Zeros(answers), cfg);
    if cfg.maxWriteWindowMs > 0 && answers != [] && answers[|answers| - 1].elapsed < cfg.maxWriteWindowMs
    then Min(backoff, cfg.maxWriteWindowMs - answers[|answers| - 1].elapsed) else backoff
  }

  /** One pause for each zero-length write. */
  function Pauses(answers: seq<Attempt>, cfg: Config): seq<nat> {
    if answers == [] then []
    else Pauses(answers[..|answers| - 1], cfg) +
         if answers[|answers| - 1].written == 0 then [Pause(answers, cfg)] else []
  }

  lemma {:induction false} BackoffBounded(k: nat, cfg: Config)
    ensures Backoff(k, cfg) <= cfg.backoffStartMs || Backoff(k, cfg) <= cfg.backoffMaxMs
  {
    if k > 1 { BackoffBounded(k - 1, cfg); }
  }

  /** No pause exceeds the configured backoff nor the window. */
  lemma {:induction false} PausesBounded(answers: seq<Attempt>, size: nat, cfg: Config)
    requires Persists(answers, size, cfg)
    ensures forall p :: p in Pauses(answers, cfg) ==>
              && (p <= cfg.backoffStartMs || p <= cfg.backoffMaxMs)
              && (cfg.maxWriteWindowMs > 0 ==> p <= cfg.maxWriteWindowMs)
    decreases |answers|
  {
    if answers != [] {
      var front, last := answers[..|answers| - 1], answers[|answers| - 1];
      PausesBounded(front, size, cfg);
      BackoffBounded(Zeros(answers), cfg);
      assert last.written == 0 ==> Taken(answers) == Taken(front);
    }
  }

  lemma OneMoreAnswer(answers: seq<Attempt>, a: Attempt, size: nat, cfg: Config)
    requires Persists(answers, size, cfg) && Taken(answers) < size
    ensures Taken(answers + [a]) == Taken(answers) + a.written
    ensures Zeros(answers + [a]) == if a.written == 0 then Zeros(answers) + 1 else 0
    ensures Taken(answers + [a]) < size && Exhausted(answers + [a], cfg) ==> GivesUp(answers + [a], size, cfg)
    ensures Taken(answers + [a]) >= size || !Exhausted(answers + [a], cfg) ==> Persists(answers + [a], size, cfg)
    ensures Pauses(answers + [a], cfg) ==
            Pauses(answers, cfg) + if a.written == 0 then [Pause(answers + [a], cfg)] else []
  {
    assert (answers + [a])[..|answers|] == answers;
  }

  /** How a call that looked at the client ended. */
  ghost predicate Outcome(answers: seq<Attempt>, size: nat, cfg: Config, ok: bool, pauses: seq<nat>) {
    if ok then Persists(answers, size, cfg) && Taken(answers) == size && pauses == Pauses(answers, cfg)
    else GivesUp(answers, size, cfg) && pauses == Pauses(answers[..|answers| - 1], cfg)
  }

  /**
   Deliver all of data, retrying zero-length writes. It always terminates; it
   delivers a prefix, and reports success exactly when that prefix is all of it.
   It gives up exactly at the first answer that leaves bytes over with the retries
   or the window used up, and pauses by the backoff after every zero-length write
   before that.
   */
  method WriteAll(client: Client, isNull: bool, data: seq<byte>, cfg: Config)
    returns (ok: bool, ghost sent: nat, pauses: seq<nat>, ghost answers: seq<Attempt>)
    requires cfg.InRange()
    modifies client`delivered, client`log
    ensures sent <= |data| && client.delivered == old(client.delivered) + data[..sent]
    ensures ok <==> sent == |data|
    ensures client.log == old(client.log) + answers && Taken(answers) == sent
    ensures data == [] || isNull ==> answers == [] && pauses == [] && ok == (data == [])
    ensures data != [] && !isNull ==> Outcome(answers, |data|, cfg, ok, pauses)
    ensures forall p :: p in pauses ==>
              && (p <= cfg.backoffStartMs || p <= cfg.backoffMaxMs)
              && (cfg.maxWriteWindowMs > 0 ==> p <= cfg.maxWriteWindowMs)
  {
    hide Taken, Zeros, Persists, Pauses, Backoff, NextBackoff;
    sent, pauses, answers := 0, [], [];
    NoAnswers(|data|, cfg);
    if |data| == 0 { return true, 0, [], []; }
    if isNull { return false, 0, [], []; }
    var offset, zeroWriteRetries := 0, 0;
    var backoffMs: nat := cfg.backoffStartMs;
    while offset < |data|
      invariant 0 <= offset <= |data| && sent == offset == Taken(answers)
      invariant client.delivered == old(client.delivered) + data[..offset]
      invariant client.log == old(client.log) + answers && Persists(answers, |data|, cfg)
      invariant offset < |data| ==>
                  && zeroWriteRetries == Zeros(answers) <= cfg.maxZeroWriteRetries
                  && backoffMs == Backoff(Zeros(answers) + 1, cfg)
      invariant pauses == Pauses(answers, cfg)
      decreases |data| - offset, cfg.maxZeroWriteRetries - zeroWriteRetries
    {
      var written, elapsed := client.Write(data[offset..]);
      OneMoreAnswer(answers, Attempt(written, elapsed), |data|, cfg);
      BackoffStep(answers, cfg);
      ghost var before := answers;
      answers := answers + [Attempt(written, elapsed)];
      if written == 0 {
        if zeroWriteRetries >= cfg.maxZeroWriteRetries {
          GaveUp(before, Attempt(written, elapsed), |data|, cfg);
          return false, sent, pauses, answers;
        }
        zeroWriteRetries := zeroWriteRetries + 1;
        var pause: nat := backoffMs;
        if cfg.maxWriteWindowMs > 0 {
          if elapsed >= cfg.maxWriteWindowMs {
            GaveUp(before, Attempt(written, elapsed), |data|, cfg);
            return false, sent, pauses, answers;
          }
          var remaining := cfg.maxWriteWindowMs - elapsed;
          if pause > remaining { pause := remaining; }
        }
        pauses := pauses + [pause];
        backoffMs := NextBackoff(backoffMs, cfg);
      } else {
        Advance(data, offset, written, old(client.delivered));
        offset, sent := offset + written, offset + written;
        zeroWriteRetries := 0;
        backoffMs := cfg.backoffStartMs;
        if cfg.maxWriteWindowMs > 0 && offset < |data| && elapsed >= cfg.maxWriteWindowMs {
          GaveUp(before, Attempt(written, elapsed), |data|, cfg);
          return false, sent, pauses, answers;
        }
      }
    }
    PausesBounded(answers, |data|, cfg);
    return true, sent, pauses, answers;
  }

  lemma NoAnswers(size: nat, cfg: Config)
    ensures Taken([]) == 0 && Zeros([]) == 0 && Persists([], size, cfg) && Pauses([], cfg) == []
    ensures Backoff(1, cfg) == cfg.backoffStartMs
  {
  }

  lemma BackoffStep(answers: seq<Attempt>, cfg: Config)
    ensures Backoff(Zeros(answers) + 2, cfg) == NextBackoff(Backoff(Zeros(answers) + 1, cfg), cfg)
    ensures Backoff(1, cfg) == cfg.backoffStartMs
  {
  }

  /** The pauses up to the answer that ended the call are those before it. */
  lemma GaveUp(before: seq<Attempt>, a: Attempt, size: nat, cfg: Config)
    requires Persists(before, size, cfg)
    ensures (before + [a])[..|before + [a]| - 1] == before
    ensures forall p :: p in Pauses(before, cfg) ==>
              && (p <= cfg.backoffStartMs || p <= cfg.backoffMaxMs)
              && (cfg.maxWriteWindowMs > 0 ==> p <= cfg.maxWriteWindowMs)
  {
    PausesBounded(before, size, cfg);
  }

  lemma Advance(data: seq<byte>, offset: nat, written: nat, before: seq<byte>)
    requires offset + written <= |data|
    ensures before + data[..offset] + data[offset..][..written] == before + data[..offset + written]
  {
    assert data[..offset] + data[offset..][..written] == data[..offset + written];
  }

  /**
   The buffered printer. Until it fails, what the client took plus what is
   still buffered is exactly what callers were told was accepted; after it
   failed, the client keeps a prefix of that and never receives another byte.
   */
  class BufferedClientPrint {
    const client: Client
    const buffer: array<byte>
    var used: nat
    var failed: bool
    ghost const base: seq<byte>      // what the client had taken before
    ghost var accepted: seq<byte>    // every byte ever reported as written
    ghost var failedFrom: nat        // where the answers to the failed flush begin

    ghost predicate Valid()
      reads this, buffer, client
    {
      && buffer.Length > 0 && used <= buffer.Length
      && (!failed ==> client.delivered + buffer[..used] == base + accepted)
      && (failed ==> used == 0 && client.stopped && client.delivered <= base + accepted)
      && (failed ==> failedFrom <= |client.log| && Exhausted(client.log[failedFrom..], Config(2, 2500, 1, 16)))
    }

    constructor (client: Client, capacity: nat)
      requires capacity > 0
      ensures Valid() && fresh(buffer) && this.client == client && buffer.Length == capacity
      ensures base == client.delivered && accepted == [] && !failed
    {
      this.client := client;
      buffer := new byte[capacity](_ => 0);
      used, failed, base, accepted, failedFrom := 0, false, client.delivered, [], 0;
    }

    method FlushBuffer() returns (ok: bool)
      requires Valid()
      modifies this`used, this`failed, this`failedFrom, client
      ensures Valid() && ok == !failed && used == 0
      ensures accepted == old(accepted)
      ensures old(failed) ==> failed && client.delivered == old(client.delivered)
      ensures failed && !old(failed) ==> failedFrom == |old(client.log)|
      ensures |old(client.log)| <= |client.log|
      ensures old(failed) || old(used) == 0 ==> client.log == old(client.log)
      ensures !failed && old(used) > 0 ==>
                && old(client.log) <= client.log
                && Persists(client.log[|old(client.log)|..], old(used), Config(2, 2500, 1, 16))
      ensures !failed ==> client.delivered == base + accepted
      ensures old(client.delivered) <= client.delivered
    {
      if failed || used == 0 {
        return !failed;
      }
      hide Zeros, Taken, Persists, Pauses;
      failedFrom := |client.log|;
      var sentAll, pauses; ghost var sent, answers;
      sentAll, sent, pauses, answers := WriteAll(client, false, buffer[..used], DEFAULT_CONFIG);
      assert client.log[failedFrom..] == answers;
      assert buffer[..used][..sent] <= buffer[..used];
      if !sentAll {
        failed := true;
        client.Stop();
      } else {
        assert buffer[..used][..sent] == buffer[..used];
      }
      used := 0;
      return !failed;
    }

    method Write(isNull: bool, data: seq<byte>) returns (count: nat)
      requires Valid()
      modifies this`used, this`failed, this`failedFrom, this`accepted, client, buffer
      ensures Valid() && count <= |data| && accepted == old(accepted) + data[..count]
      ensures !failed && !isNull ==> count == |data|
      ensures old(failed) ==> failed && count == 0 && client.delivered == old(client.delivered)
      ensures failed && !old(failed) ==> failedFrom >= |old(client.log)|
      // what fits the buffer stays there: nothing is sent yet
      ensures !old(failed) && !isNull && old(used) + |data| <= buffer.Length ==>
                !failed && used == old(used) + |data| && client.log == old(client.log)
      ensures isNull ==> count == 0
      ensures old(client.delivered) <= client.delivered
    {
      if isNull || |data| == 0 || failed {
        return 0;
      }
      count := 0;
      while count < |data|
        invariant 0 <= count <= |data| && Valid() && !failed
        invariant accepted == old(accepted) + data[..count] && |old(client.log)| <= |client.log|
        invariant old(used) + |data| <= buffer.Length ==> used == old(used) + count && client.log == old(client.log)
        invariant old(client.delivered) <= client.delivered
      {
        if used == buffer.Length {
          var flushed := FlushBuffer();
          if !flushed { break; }
        }
        count := CopyIn(data, count);
      }
    }

    /** memcpy of what fits. */
    method CopyIn(data: seq<byte>, from: nat) returns (upTo: nat)
      requires Valid() && !failed && used < buffer.Length && from < |data|
      modifies this`used, this`accepted, buffer
      ensures Valid() && from < upTo <= |data| && accepted == old(accepted) + data[from..upTo]
      ensures used == old(used) + (upTo - from)
    {
      var free := buffer.Length - used;
      var toCopy := if |data| - from < free then |data| - from else free;
      upTo := from + toCopy;
      var chunk := data[from..upTo];
      ghost var front := buffer[..used];
      forall i | 0 <= i < toCopy { buffer[used + i] := chunk[i]; }
      assert buffer[..used + toCopy] == front + chunk;
      used := used + toCopy;
      accepted := accepted + chunk;
      assert client.delivered + (front + chunk) == client.delivered + front + chunk;
    }
  }

  /**
   sendJsonStream: the serializer prints piece after piece without looking at
   the counts. Either the client has the whole document, or it was stopped
   with a prefix of it; bytes are never skipped in between.
   */
  method SendJsonStream(client: Client, pieces: seq<seq<byte>>) returns (complete: bool)
    modifies client
    ensures complete ==> client.delivered == old(client.delivered) + Flattened(pieces)
    ensures !complete ==> client.stopped && client.delivered <= old(client.delivered) + Flattened(pieces)
    ensures complete && |Flattened(pieces)| <= 512 ==>
              // a short document goes out in one call
              && old(client.log) <= client.log
              && Persists(client.log[|old(client.log)|..], |Flattened(pieces)|, Config(2, 2500, 1, 16))
    ensures !complete ==> exists n :: 0 <= n <= |client.log| && Exhausted(client.log[n..], Config(2, 2500, 1, 16))
  {
    var printer := new BufferedClientPrint(client, 512);
    var i := 0;
    while i < |pieces|
      invariant 0 <= i <= |pieces| && printer.Valid()
      invariant printer.accepted <= Flattened(pieces[..i])
      invariant !printer.failed ==> printer.accepted == Flattened(pieces[..i])
      invariant printer.buffer.Length == 512
      invariant |Flattened(pieces[..i])| <= 512 ==>
                  !printer.failed && printer.used == |Flattened(pieces[..i])| && client.log == old(client.log)
    {
      var count := printer.Write(false, pieces[i]);
      assert pieces[..i + 1][..i] == pieces[..i];
      assert pieces[i][..count] <= pieces[i];
      i := i + 1;
    }
    assert pieces[..i] == pieces;
    complete := printer.FlushBuffer();
  }
}
