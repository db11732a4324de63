/**
The structure that clients and server share, the queue between the polling thread and the workers,
and their critical sections: what each does to the fields, as functions and as methods in place.
*/
module IpcData {

  type Bytes = seq<bv8>

  /** sizeof( reqData ) and sizeof( resData ): 128 unsigned ints. */
  const INLINE_BYTES := 512

  /** What a callback leaves behind: a size without any data, or data of that size. */
  datatype Outcome = Silent(size: nat) | Reply(bytes: Bytes)

  type InlineOutcome = o: Outcome | o.Reply? ==> |o.bytes| <= INLINE_BYTES witness Silent(0)

  type Buffer = b: Bytes | |b| == INLINE_BYTES witness seq(INLINE_BYTES, _ => 0)

  function Zeroes(): Buffer {
    seq(INLINE_BYTES, _ => 0)
  }

  /** stIPCData. The last field is not in the source: it names the request that the other fields belong
      to, by its number in posting order, so that a copy of the structure can be followed. */
  datatype Data = Data(
    reqData: Buffer, requestSize: nat, hasRequest: bool,
    resData: Buffer, responseSize: nat, hasResponse: bool, needResponse: bool,
    sender: string, senderPid: nat, isInit: bool, tag: nat)

  /** Fresh shared memory, and the value-initialised T() that a stopped queue returns. */
  function Blank(): Data {
    Data(Zeroes(), 0, false, Zeroes(), 0, false, false, "", 0, false, 0)
  }

  /** memcpy over the start of a buffer: what lies behind stays. */
  function Overwritten(b: Buffer, bytes: Bytes): Buffer
    requires |bytes| <= INLINE_BYTES
  {
    bytes + b[|bytes|..]
  }

  function Request(d: Data): Bytes
    requires d.requestSize <= INLINE_BYTES
  {
    d.reqData[..d.requestSize]
  }

  function Response(d: Data): Bytes
    requires d.responseSize <= INLINE_BYTES
  {
    d.resData[..d.responseSize]
  }

  predicate CanPost(server: Data) {
    server.isInit && !server.hasRequest
  }

  function Posted(server: Data, sender: string, pid: nat, payload: Bytes, tag: nat): Data
    requires |payload| <= INLINE_BYTES
  {
    server.(hasResponse := false, senderPid := pid, requestSize := |payload|, sender := sender, needResponse := true,
            reqData := Overwritten(server.reqData, payload), hasRequest := true, tag := tag)
  }

  function Cleared(server: Data): Data {
    server.(hasRequest := false, hasResponse := false, senderPid := 0, needResponse := false)
  }

  /** Whether a worker answers at all: not when no answer is wanted, nor when a size came without data. */
  predicate Answers(item: Data, outcome: Outcome) {
    item.needResponse && !(outcome.Silent? && outcome.size != 0)
  }

  function Answered(client: Data, server: string, pid: nat, outcome: InlineOutcome, tag: nat): Data {
    var bytes := if outcome.Reply? then outcome.bytes else [];
    client.(hasResponse := true, hasRequest := false, senderPid := pid, sender := server, isInit := true,
            responseSize := |bytes|, resData := Overwritten(client.resData, bytes), tag := tag)
  }

  predicate HasAnswer(client: Data) {
    !client.hasRequest && client.hasResponse
  }

  /** The bytes read back are the bytes written, whatever the buffers held before. */
  lemma {:induction false} CopiesAreExact(
      server: Data, client: Data, payload: Bytes, outcome: InlineOutcome, name: string, pid: nat, tag: nat)
    requires |payload| <= 512
    ensures Request(Posted(server, name, pid, payload, tag)) == payload
    ensures Response(Answered(client, name, pid, outcome, tag)) == if outcome.Reply? then outcome.bytes else []
  {
  }

  // ----- The same in place

  class EventQueue<T> {
    var queue: seq<T>
    var isStop: bool

    constructor ()
      ensures queue == [] && !isStop
    {
      queue, isStop := [], false;
    }

    method EnQueue(item: T)
      modifies this
      ensures queue == old(queue) + [item] && isStop == old(isStop)
    {
      queue := queue + [item];
    }

    /** What follows the wait, which ends with a queue that is not empty or, in ExDataStruct.hpp, with a stop. */
    method DeQueue(blank: T) returns (item: T)
      requires queue != [] || isStop
      modifies this
      ensures isStop == old(isStop)
      ensures if isStop then item == blank && queue == old(queue) else [item] + queue == old(queue)
    {
      if isStop {
        return blank;
      }
      item := queue[0];
      queue := queue[1..];
    }

    method Stop()
      modifies this
      ensures isStop && queue == old(queue)
    {
      isStop := true;
    }
  }

  class SharedData {
    var reqData: array<bv8>
    var requestSize: nat
    var hasRequest: bool
    var resData: array<bv8>
    var responseSize: nat
    var hasResponse: bool
    var needResponse: bool
    var sender: string
    var senderPid: nat
    var isInit: bool
    var tag: nat

    ghost predicate Valid()
      reads this
    {
      reqData.Length == resData.Length == INLINE_BYTES && reqData != resData
    }

    ghost function View(): Data
      reads this, reqData, resData
      requires Valid()
    {
      Data(reqData[..], requestSize, hasRequest, resData[..], responseSize, hasResponse, needResponse,
           sender, senderPid, isInit, tag)
    }

    constructor (init: bool)
      ensures Valid() && fresh(reqData) && fresh(resData) && View() == Blank().(isInit := init)
    {
      reqData, resData := new bv8[INLINE_BYTES](_ => 0), new bv8[INLINE_BYTES](_ => 0);
      requestSize, hasRequest, responseSize, hasResponse, needResponse := 0, false, 0, false, false;
      sender, senderPid, isInit, tag := "", 0, init, 0;
    }

    static method CopyInto(buffer: array<bv8>, bytes: Bytes)
      requires |bytes| <= buffer.Length == INLINE_BYTES
      modifies buffer
      ensures buffer[..] == Overwritten(old(buffer[..]), bytes)
    {
      forall i | 0 <= i < |bytes| {
        buffer[i] := bytes[i];
      }
    }

    /** The critical section of SendIPC's first loop; hasRequest is written last. */
    method TryPost(name: string, pid: nat, payload: Bytes, number: nat) returns (sent: bool)
      requires Valid() && |payload| <= INLINE_BYTES
      modifies this, reqData
      ensures Valid() && reqData == old(reqData) && resData == old(resData)
      ensures sent == (old(isInit) && !old(hasRequest))
      ensures sent ==>
        && hasRequest && !hasResponse && needResponse && isInit && sender == name && senderPid == pid && tag == number
        && requestSize == |payload| && reqData[..] == payload + old(reqData[..])[|payload|..]
        && responseSize == old(responseSize) && resData[..] == old(resData[..])
      ensures View() == if sent then Posted(old(View()), name, pid, payload, number) else old(View())
    {
      if !isInit || hasRequest {
        return false;
      }
      hasResponse := false;
      senderPid := pid;
      requestSize := |payload|;
      sender := name;
      needResponse := true;
      CopyInto(reqData, payload);
      tag := number;
      hasRequest := true;
      sent := true;
    }

    method Clear()
      requires Valid()
      modifies this
      ensures Valid() && reqData == old(reqData) && resData == old(resData)
      ensures !hasRequest && !hasResponse && !needResponse && senderPid == 0
      ensures requestSize == old(requestSize) && reqData[..] == old(reqData[..]) && isInit == old(isInit)
      ensures responseSize == old(responseSize) && resData[..] == old(resData[..])
      ensures sender == old(sender) && tag == old(tag) && View() == Cleared(old(View()))
    {
      hasRequest := false;
      hasResponse := false;
      senderPid := 0;
      needResponse := false;
    }

    /** The critical section of the polling thread: a copy goes into the queue unless the sender is gone. */
    method Poll(senderAlive: bool, queue: EventQueue<Data>)
      requires Valid()
      modifies this, queue
      ensures Valid() && reqData == old(reqData) && resData == old(resData) && queue.isStop == old(queue.isStop)
      ensures !hasRequest && View() == if old(hasRequest) then Cleared(old(View())) else old(View())
      ensures queue.queue == old(queue.queue) + if old(hasRequest) && senderAlive then [old(View())] else []
    {
      if hasRequest {
        if !senderAlive {
          Clear();
          return;
        }
        var copy := Data(reqData[..], requestSize, hasRequest, resData[..], responseSize, hasResponse, needResponse,
                         sender, senderPid, isInit, tag);
        queue.EnQueue(copy);
        Clear();
      }
    }

    /** A worker's critical section on the slot of a client. */
    method Answer(server: string, pid: nat, outcome: InlineOutcome, number: nat)
      requires Valid() && (outcome.Silent? ==> outcome.size == 0)
      modifies this, resData
      ensures Valid() && reqData == old(reqData) && resData == old(resData)
      ensures hasResponse && !hasRequest && isInit && sender == server && senderPid == pid && tag == number
      ensures responseSize == (if outcome.Reply? then |outcome.bytes| else 0)
      ensures outcome.Reply? ==> resData[..] == outcome.bytes + old(resData[..])[|outcome.bytes|..]
      ensures outcome.Silent? ==> resData[..] == old(resData[..])
      ensures reqData[..] == old(reqData[..]) && requestSize == old(requestSize) && needResponse == old(needResponse)
      ensures View() == Answered(old(View()), server, pid, outcome, number)
    {
      hasResponse := true;
      hasRequest := false;
      senderPid := pid;
      sender := server;
      isInit := true;
      tag := number;
      match outcome
      case Silent(_) =>
        responseSize := 0;
        assert Overwritten(resData[..], []) == resData[..];
      case Reply(bytes) =>
        responseSize := |bytes|;
        CopyInto(resData, bytes);
    }

    /** The critical section of SendIPC's second loop. */
    method TryReceive() returns (received: bool, response: Bytes)
      requires Valid() && responseSize <= INLINE_BYTES
      ensures received == (!hasRequest && hasResponse) == HasAnswer(View())
      ensures received ==> response == resData[..responseSize] == Response(View())
    {
      if hasRequest || !hasResponse {
        return false, [];
      }
      return true, resData[..responseSize];
    }
  }
}
