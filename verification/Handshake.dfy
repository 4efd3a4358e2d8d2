/**
 * The exchange of data requests on a new connection. Two events complete it, in either order: the
 * peer's request arrives, and the last received version has been looked up.
 */
module Handshake {
  import opened Items

  /** What a side asks for: nothing, everything, or what comes after a version. */
  datatype Start = Nothing | Everything | After(v: Version)

  datatype Failure = NoRequest | InvalidRequest | NoExport | Lookup

  datatype Result = Pending | Agreed(sendOffset: Start) | Failed(error: Failure)

  /** What the connection yields when it is first read. */
  datatype Incoming = Ended | Malformed | Request(start: Start)

  class Handshake {
    const receiveBeforeSend: bool
    const exports: bool
    const imports: bool
    var dataReqReceived: bool
    var dataReqSent: bool
    var sendOffset: Start
    var dataReq: Option<Start>
    var i: nat
    var written: seq<Start>
    var result: Result
    var thrown: bool
    ghost var asked: bool            // the peer's first message has been read
    ghost var looked: bool           // the lookup has been answered
    ghost var wanted: Start          // what this side asks for
    ghost var sentAfter: bool        // whether the peer's request was in when ours was written

    /** The states between the two events. */
    ghost predicate Valid()
      reads this
    {
      && !thrown
      && i == (if dataReqReceived then 1 else 0) + (if dataReq.Some? || !imports then 1 else 0)
      && (dataReqReceived ==> asked) && (dataReq.Some? ==> looked && imports && dataReq == Some(wanted))
      && (!imports ==> looked && wanted == Nothing)
      && (dataReqSent <==> !imports || (dataReq.Some? && (!receiveBeforeSend || dataReqReceived)))
      && written == (if dataReqSent then [wanted] else [])
      && (imports && receiveBeforeSend && dataReqSent ==> sentAfter)
      && (result.Agreed? <==> dataReqReceived && dataReqSent && !result.Failed?)
      && (result.Agreed? ==> result.sendOffset == sendOffset)
    }

    constructor (receiveBeforeSend: bool, exports: bool, imports: bool)
      ensures Valid() && !asked && result == Pending && (looked <==> !imports)
      ensures this.receiveBeforeSend == receiveBeforeSend && this.exports == exports && this.imports == imports
    {
      this.receiveBeforeSend, this.exports, this.imports := receiveBeforeSend, exports, imports;
      dataReqReceived, dataReqSent, dataReq, i, written, result, thrown := false, false, None, 0, [], Pending, false;
      sendOffset := Nothing;
      asked, looked, wanted, sentAfter := false, !imports, Nothing, false;
      new;
      if !imports {
        written := [Nothing];
        dataReqSent := true;
        Finalize();
      }
    }

    /** Only the first call of the callback counts. */
    method Callback(r: Result)
      modifies this`result
      ensures result == if old(result) == Pending then r else old(result)
    {
      if result == Pending {
        result := r;
      }
    }

    /** Run after each of the two events. */
    method Finalize()
      requires !thrown
      modifies this`i, this`written, this`dataReqSent, this`result, this`thrown, this`sentAfter
      ensures i == old(i) + 1
      ensures
        var now := !old(dataReqSent) && receiveBeforeSend && dataReqReceived && dataReq.Some?;
        && dataReqSent == (old(dataReqSent) || now)
        && written == old(written) + (if now then [dataReq.value] else [])
        && sentAfter == (old(sentAfter) || now)
      ensures
        if dataReqReceived && dataReqSent
        then result == (if old(result) == Pending then Agreed(sendOffset) else old(result)) && !thrown
        else result == old(result) && (thrown <==> i >= 2)
    {
      i := i + 1;
      if !dataReqSent && receiveBeforeSend && dataReqReceived && dataReq.Some? {
        written := written + [dataReq.value];
        dataReqSent := true;
        sentAfter := true;
      }
      if dataReqReceived && dataReqSent {
        Callback(Agreed(sendOffset));
        return;
      } else if i >= 2 {
        thrown := true;
      }
    }

    /** What is wrong with what the peer sent, if anything is. */
    ghost predicate Refused(req: Incoming, why: Failure) {
      match why
      case NoRequest => req.Ended?
      case InvalidRequest => req.Malformed?
      case NoExport => req.Request? && req.start != Nothing && !exports
      case Lookup => false
    }

    /** The peer's request is read; it is answered once. */
    method OnReadable(req: Incoming)
      requires Valid() && !asked
      modifies this
      ensures Valid() && asked && looked == old(looked) && wanted == old(wanted) && dataReq == old(dataReq)
      ensures req.Request? && (req.start == Nothing || exports) ==>
                dataReqReceived && sendOffset == req.start && (old(result) == Pending ==> !result.Failed?)
      ensures !(req.Request? && (req.start == Nothing || exports)) ==>
                && result.Failed? && written == old(written) && sendOffset == old(sendOffset)
                && (if old(result) == Pending then Refused(req, result.error) else result == old(result))
    {
      asked := true;
      if req.Ended? { Callback(Failed(NoRequest)); return; }
      if req.Malformed? { Callback(Failed(InvalidRequest)); return; }
      if req.start != Nothing && !exports { Callback(Failed(NoExport)); return; }
      sendOffset := req.start;
      dataReqReceived := true;
      Finalize();
    }

    /** The lookup of the last received version is answered; without one, everything is asked for. */
    method OnLast(last: Option<Version>)
      requires Valid() && imports && !looked
      modifies this
      ensures Valid() && looked && asked == old(asked) && sendOffset == old(sendOffset) && dataReqReceived == old(dataReqReceived)
      ensures wanted == (if last.Some? then After(last.value) else Everything) && dataReq == Some(wanted)
      ensures result == old(result) || (old(result) == Pending && result == Agreed(sendOffset))
    {
      looked := true;
      var request := if last.Some? then After(last.value) else Everything;
      wanted := request;
      dataReq := Some(request);
      if !receiveBeforeSend || dataReqReceived {
        sentAfter := dataReqReceived;
        written := written + [request];
        dataReqSent := true;
      }
      Finalize();
    }

    /** The lookup failed. */
    method OnLookupError()
      requires Valid() && imports && !looked
      modifies this
      ensures Valid() && looked && asked == old(asked) && written == old(written)
      ensures result == if old(result) == Pending then Failed(Lookup) else old(result)
    {
      looked := true;
      Callback(Failed(Lookup));
    }

    /**
     * Once both events have happened without failure, the handshake is complete: the offset to send
     * from is the peer's, exactly one request was written, and a side that must receive first did.
     */
    lemma Completes()
      requires Valid() && dataReqReceived && (imports ==> dataReq.Some?) && !result.Failed?
      ensures result == Agreed(sendOffset) && written == [wanted] && !thrown
      ensures imports && receiveBeforeSend ==> sentAfter
    {
    }
  }

  /**
   * A whole handshake, in either order of the events and for every mix of rules: it succeeds unless
   * data is asked for that is not exported, and then one request has been written.
   */
  method Exchange(receiveBeforeSend: bool, exports: bool, imports: bool, peerFirst: bool, start: Start, last: Option<Version>)
    returns (r: Result, written: seq<Start>)
    ensures r.Agreed? <==> start == Nothing || exports
    ensures r.Agreed? ==> r.sendOffset == start
    ensures r.Agreed? ==> written == [if !imports then Nothing else if last.Some? then After(last.value) else Everything]
    ensures !r.Agreed? ==> r == Failed(NoExport)
  {
    var h := new Handshake(receiveBeforeSend, exports, imports);
    if !imports {
      h.OnReadable(Request(start));
    } else if peerFirst {
      h.OnReadable(Request(start));
      h.OnLast(last);
    } else {
      h.OnLast(last);
      h.OnReadable(Request(start));
    }
    if start == Nothing || exports {
      h.Completes();
    }
    r, written := h.result, h.written;
  }
}
