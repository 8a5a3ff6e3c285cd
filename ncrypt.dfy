/** The key storage provider seen from the package: every NCrypt call is a
    `Call` value answered by an abstract function `respond`, and a `Provider`
    object records the calls made on it. The two-phase (size probe, then fill)
    convention is defined once, as the pure `Exchange` and the method `TwoPhase`. */
module Ncrypt {
  import opened Bytes
  import opened Types

  type Handle = nat

  /** The padding-information struct passed to NCryptSignHash / NCryptDecrypt. */
  datatype Padding =
    | NoPaddingInfo
    | Pkcs1PaddingInfo(algId: string)
    | OaepPaddingInfo(algId: string, labelText: string, labelLength: nat)

  datatype Operation =
    | SignHash(padding: Padding, digest: seq<byte>, flags: nat)
    | Decrypt(input: seq<byte>, padding: Padding, flags: nat)
    | ExportKey(blobType: string)
    | GetProperty(property: string)
    | OpenKey(container: string, flags: nat)
    | CreatePersistedKey(algId: string, container: string, flags: nat)
    | SetProperty(property: string, value: nat, flags: nat)
    | FinalizeKey(flags: nat)

  /** One provider call on `target`; `output` is the capacity of the output
      buffer, or None when the output pointer is null (the size probe). */
  datatype Call = Call(target: Handle, op: Operation, output: Option<nat>)

  /** The provider's answer: the status it returns (0 is success), the length it
      reports through the result-size pointer, the bytes it writes into the
      output buffer, and the handle it returns through a handle pointer. */
  datatype Reply = Reply(status: nat, size: uint32, output: seq<byte>, handle: Handle)

  /** The buffer `before` after the provider wrote `written` from its start:
      what does not fit is lost, what is not overwritten stays. */
  function Overlay(before: seq<byte>, written: seq<byte>): (s: seq<byte>)
    ensures |s| == |before|
  {
    if |written| >= |before| then written[..|before|] else written + before[|written|..]
  }

  function Zeros(n: nat): (s: seq<byte>)
    ensures |s| == n && AllZero(s)
  {
    seq(n, i => 0)
  }

  class Provider {
    const respond: Call -> Reply
    var log: seq<Call>

    constructor (respond: Call -> Reply)
      ensures this.respond == respond && log == []
    {
      this.respond := respond;
      log := [];
    }

    /** A call without an output buffer. */
    method Invoke(c: Call) returns (rep: Reply)
      modifies this
      ensures rep == respond(c) && log == old(log) + [c]
    {
      rep := respond(c);
      log := log + [c];
    }

    /** A call that writes its output into the caller's buffer. */
    method InvokeInto(c: Call, buf: array<byte>) returns (rep: Reply)
      requires c.output == Some(buf.Length)
      modifies this, buf
      ensures rep == respond(c) && log == old(log) + [c]
      ensures buf[..] == Overlay(old(buf[..]), rep.output)
    {
      rep := respond(c);
      log := log + [c];
      forall i | 0 <= i < buf.Length && i < |rep.output| {
        buf[i] := rep.output[i];
      }
      assert forall i :: 0 <= i < buf.Length ==>
        buf[i] == Overlay(old(buf[..]), rep.output)[i];
    }
  }

  /** Appending the calls of one step after another: the log grows by both. */
  lemma AppendAssoc<T>(a: seq<T>, b: seq<T>, c: seq<T>)
    ensures (a + b) + c == a + (b + c)
  {
  }

  /** The calls made so far and, once they are done, their outcome. */
  datatype Run<T> = Run(result: Result<T>, calls: seq<Call>)

  /** A filled buffer (allocated at the probed length) and the length the fill reported. */
  datatype Fetched = Fetched(buffer: seq<byte>, reported: nat)

  function ProbeCall(target: Handle, op: Operation): Call {
    Call(target, op, None)
  }

  function FillCall(target: Handle, op: Operation, capacity: nat): Call {
    Call(target, op, Some(capacity))
  }

  /** The two-phase convention: probe with a null buffer for the length, then
      fill a zeroed buffer of that length; either non-zero status is an error
      naming its phase, and a failed probe means no fill is attempted. */
  function Exchange(respond: Call -> Reply, target: Handle, op: Operation): (x: Run<Fetched>)
    ensures 1 <= |x.calls| <= 2 && x.calls[0] == ProbeCall(target, op)
    ensures |x.calls| == 1 <==> respond(ProbeCall(target, op)).status != 0
    ensures |x.calls| == 2 ==> x.calls[1] == FillCall(target, op, respond(ProbeCall(target, op)).size)
    ensures x.result.Ok? ==> |x.result.value.buffer| == respond(ProbeCall(target, op)).size
    ensures respond(ProbeCall(target, op)).status != 0 ==>
      x.result == Err(ProviderFailed(respond(ProbeCall(target, op)).status, SizeProbe))
    ensures respond(ProbeCall(target, op)).status == 0 ==>
      var fill := respond(FillCall(target, op, respond(ProbeCall(target, op)).size));
      (fill.status != 0 ==> x.result == Err(ProviderFailed(fill.status, Fill))) &&
      (fill.status == 0 ==> x.result.Ok? && x.result.value.reported == fill.size)
  {
    var probe := respond(ProbeCall(target, op));
    if probe.status != 0 then
      Run(Err(ProviderFailed(probe.status, SizeProbe)), [ProbeCall(target, op)])
    else
      var calls := [ProbeCall(target, op), FillCall(target, op, probe.size)];
      var fill := respond(FillCall(target, op, probe.size));
      if fill.status != 0 then Run(Err(ProviderFailed(fill.status, Fill)), calls)
      else Run(Ok(Fetched(Overlay(Zeros(probe.size), fill.output), fill.size)), calls)
  }

  /** Taking the address of the first byte of the fill buffer needs a non-empty buffer. */
  predicate ProbeAtLeast(respond: Call -> Reply, target: Handle, op: Operation, n: nat) {
    var probe := respond(ProbeCall(target, op));
    probe.status == 0 ==> probe.size >= n
  }

  /** Slicing the filled buffer at the reported length needs that length within the buffer. */
  predicate FillFits(respond: Call -> Reply, target: Handle, op: Operation) {
    var probe := respond(ProbeCall(target, op));
    probe.status == 0 ==>
      var fill := respond(FillCall(target, op, probe.size));
      fill.status == 0 ==> fill.size <= probe.size
  }

  /** Whatever the provider writes beyond the buffer is lost, and what it leaves
      unwritten stays zero. */
  lemma {:induction false} ExchangeBuffer(respond: Call -> Reply, target: Handle, op: Operation)
    requires Exchange(respond, target, op).result.Ok?
    ensures var probe := respond(ProbeCall(target, op));
            var fill := respond(FillCall(target, op, probe.size));
            var buf := Exchange(respond, target, op).result.value.buffer;
            && (|fill.output| >= probe.size ==> buf == fill.output[..probe.size])
            && (|fill.output| <= probe.size ==> buf == fill.output + Zeros(probe.size - |fill.output|))
  {
    var probe := respond(ProbeCall(target, op));
    var fill := respond(FillCall(target, op, probe.size));
    var buf := Exchange(respond, target, op).result.value.buffer;
    assert buf == Overlay(Zeros(probe.size), fill.output);
    if |fill.output| >= probe.size {
      assert buf == fill.output[..probe.size];
    }
    if |fill.output| <= probe.size {
      assert buf == fill.output + Zeros(probe.size - |fill.output|);
    }
  }

  /** NCrypt's size-probe/fill protocol: allocate at the probed length, have the
      provider fill the buffer in place. */
  method TwoPhase(p: Provider, target: Handle, op: Operation) returns (r: Result<Fetched>)
    requires ProbeAtLeast(p.respond, target, op, 1)
    modifies p
    ensures r == Exchange(p.respond, target, op).result
    ensures p.log == old(p.log) + Exchange(p.respond, target, op).calls
  {
    var probe := p.Invoke(ProbeCall(target, op));
    if probe.status != 0 {
      return Err(ProviderFailed(probe.status, SizeProbe));
    }
    var buf := new byte[probe.size](_ => 0);
    assert buf[..] == Zeros(probe.size);
    var fill := p.InvokeInto(FillCall(target, op, probe.size), buf);
    if fill.status != 0 {
      return Err(ProviderFailed(fill.status, Fill));
    }
    r := Ok(Fetched(buf[..], fill.size));
  }
}
