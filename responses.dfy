/** The response checks of the get, set, inform, getNext and getBulk
    operations: each feed callback receives the request's OIDs and the
    response's varbinds and calls the caller's responseCb. */
module Responses {
  import opened SnmpTypes
  import Oid
  import Pdu
  import JsNumber

  /** One element of the array a getBulk caller receives: an unset index,
      a non-repeater varbind, or the varbinds of one repeater column. */
  datatype BulkEntry = Hole | Single(vb: Varbind) | Column(vbs: seq<Varbind>)

  /** The arguments of one responseCb call: an error, a bare `null` (a
      message sent without waiting), or `null` with the varbinds. */
  datatype CallbackArg =
    | ErrorArg(error: Error)
    | NullArg
    | VarbindsArg(vbs: seq<Varbind>)
    | BulkArg(entries: seq<BulkEntry>)

  /** The responseCb calls a feed callback makes, in order, and whether it
      returns at all. An exception the callback throws reaches the caller
      as a final error call. */
  datatype FeedOutcome = FeedOutcome(calls: seq<CallbackArg>, halts: bool)

  /** The test a response varbind passes against the OID it answers. */
  type OrderTest = (string, Varbind) -> bool

  /** oidFollowsOid on OID strings. */
  predicate FollowsText(oid: string, next: string)
  {
    Oid.Follows(Oid.Components(oid), Oid.Components(next))
  }

  /** What the response varbind at a position must satisfy in getNext and
      getBulk: an exception, or an OID that follows the requested one. */
  predicate InOrder(reqOid: string, vb: Varbind)
  {
    IsVarbindError(vb) || FollowsText(reqOid, vb.oid)
  }

  // ---------------------------------------------------------------------
  // get, set and inform: the same OIDs in the same order
  // ---------------------------------------------------------------------

  /** The wording of the two errors: get and set say "request", inform
      says "inform". */
  datatype MatchWords = MatchWords(countMessage: string, noun: string)

  const RequestWords: MatchWords := MatchWords("Requested OIDs do not match response OIDs", "request")
  const InformWords: MatchWords := MatchWords("Inform OIDs do not match response OIDs", "inform")

  function MismatchError(w: MatchWords, reqOid: string, respOid: string, i: int): Error
  {
    ResponseInvalidError("OID '" + reqOid + "' in " + w.noun + " at positiion '" + JsNumber.IntText(i)
      + "' does not match OID '" + respOid + "' in response at position '" + JsNumber.IntText(i) + "'")
  }

  /** The first position from i on where the OIDs differ, or |resp|. */
  function FirstMismatch(reqOids: seq<string>, resp: seq<Varbind>, i: nat): (k: nat)
    requires |reqOids| == |resp| && i <= |resp|
    ensures i <= k <= |resp|
    ensures forall j :: i <= j < k ==> reqOids[j] == resp[j].oid
    ensures k < |resp| ==> reqOids[k] != resp[k].oid
    decreases |resp| - i
  {
    if i == |resp| || reqOids[i] != resp[i].oid then i else FirstMismatch(reqOids, resp, i + 1)
  }

  /** The calls of the get, set and inform feed callbacks. */
  function Matched(reqOids: seq<string>, resp: seq<Varbind>, w: MatchWords): FeedOutcome
  {
    if |reqOids| != |resp| then FeedOutcome([ErrorArg(ResponseInvalidError(w.countMessage))], true)
    else
      var k := FirstMismatch(reqOids, resp, 0);
      if k < |resp| then FeedOutcome([ErrorArg(MismatchError(w, reqOids[k], resp[k].oid, k))], true)
      else FeedOutcome([VarbindsArg(resp)], true)
  }

  /** The feedCb of get, set (RequestWords) and inform (InformWords). */
  method MatchFeed(reqOids: seq<string>, resp: seq<Varbind>, w: MatchWords) returns (out: FeedOutcome)
    ensures out == Matched(reqOids, resp, w)
  {
    if |reqOids| != |resp| {
      return FeedOutcome([ErrorArg(ResponseInvalidError(w.countMessage))], true);
    }
    var varbinds := [];
    var i := 0;
    while i < |reqOids|
      invariant 0 <= i <= |reqOids|
      invariant varbinds == resp[..i]
      invariant FirstMismatch(reqOids, resp, 0) == FirstMismatch(reqOids, resp, i)
    {
      if reqOids[i] != resp[i].oid {
        return FeedOutcome([ErrorArg(MismatchError(w, reqOids[i], resp[i].oid, i))], true);
      }
      varbinds := varbinds + [resp[i]];
      i := i + 1;
    }
    assert varbinds == resp;
    return FeedOutcome([VarbindsArg(varbinds)], true);
  }

  /** The caller gets the response varbinds exactly when the response has
      the requested OIDs, in order; otherwise one ResponseInvalidError,
      the count error when the lengths differ. */
  lemma MatchedIff(reqOids: seq<string>, resp: seq<Varbind>, w: MatchWords)
    ensures var out := Matched(reqOids, resp, w);
      && out.halts && |out.calls| == 1
      && (out.calls[0] == VarbindsArg(resp) <==>
            |reqOids| == |resp| && forall i :: 0 <= i < |resp| ==> reqOids[i] == resp[i].oid)
      && (out.calls[0].VarbindsArg? || out.calls[0].error.ResponseInvalidError?)
      && (|reqOids| != |resp| ==> out.calls == [ErrorArg(ResponseInvalidError(w.countMessage))])
  {
  }

  // ---------------------------------------------------------------------
  // getNext: each varbind an exception or after its requested OID
  // ---------------------------------------------------------------------

  function PrecedeError(reqOid: string, k: int, respOid: string, p: int): Error
  {
    ResponseInvalidError("OID '" + reqOid + "' in request at positiion '" + JsNumber.IntText(k)
      + "' does not precede OID '" + respOid + "' in response at position '" + JsNumber.IntText(p) + "'")
  }

  /** The first position from i on whose varbind is out of order, or |resp|. */
  function FirstUnordered(reqOids: seq<string>, resp: seq<Varbind>, i: nat): (k: nat)
    requires |reqOids| == |resp| && i <= |resp|
    ensures i <= k <= |resp|
    ensures forall j :: i <= j < k ==> InOrder(reqOids[j], resp[j])
    ensures k < |resp| ==> !InOrder(reqOids[k], resp[k])
    decreases |resp| - i
  {
    if i == |resp| || !InOrder(reqOids[i], resp[i]) then i else FirstUnordered(reqOids, resp, i + 1)
  }

  /** The calls of the getNext feed callback. */
  function NextChecked(reqOids: seq<string>, resp: seq<Varbind>): FeedOutcome
  {
    if |reqOids| != |resp| then FeedOutcome([ErrorArg(ResponseInvalidError(RequestWords.countMessage))], true)
    else
      var k := FirstUnordered(reqOids, resp, 0);
      if k < |resp| then FeedOutcome([ErrorArg(PrecedeError(reqOids[k], k, resp[k].oid, k))], true)
      else FeedOutcome([VarbindsArg(resp)], true)
  }

  /** The feedCb of getNext. */
  method GetNextFeed(reqOids: seq<string>, resp: seq<Varbind>) returns (out: FeedOutcome)
    ensures out == NextChecked(reqOids, resp)
  {
    if |reqOids| != |resp| {
      return FeedOutcome([ErrorArg(ResponseInvalidError(RequestWords.countMessage))], true);
    }
    var varbinds := [];
    var i := 0;
    while i < |reqOids|
      invariant 0 <= i <= |reqOids|
      invariant varbinds == resp[..i]
      invariant FirstUnordered(reqOids, resp, 0) == FirstUnordered(reqOids, resp, i)
    {
      if !IsVarbindError(resp[i]) {
        var follows := Oid.OidFollowsOid(reqOids[i], resp[i].oid);
        if !follows {
          return FeedOutcome([ErrorArg(PrecedeError(reqOids[i], i, resp[i].oid, i))], true);
        }
      }
      varbinds := varbinds + [resp[i]];
      i := i + 1;
    }
    assert varbinds == resp;
    return FeedOutcome([VarbindsArg(varbinds)], true);
  }

  /** The caller gets the response varbinds exactly when the counts agree
      and every varbind is an exception or follows its requested OID. */
  lemma NextCheckedIff(reqOids: seq<string>, resp: seq<Varbind>)
    ensures var out := NextChecked(reqOids, resp);
      && out.halts && |out.calls| == 1
      && (out.calls[0] == VarbindsArg(resp) <==>
            |reqOids| == |resp| && forall i :: 0 <= i < |resp| ==> InOrder(reqOids[i], resp[i]))
      && (out.calls[0].VarbindsArg? || out.calls[0].error.ResponseInvalidError?)
  {
  }

  /** A getNext response that repeats the requested OID passes, since an
      OID follows itself. */
  lemma NextAcceptsSameOid(oid: string, vb: Varbind)
    requires vb.oid == oid
    ensures NextChecked([oid], [vb]) == FeedOutcome([VarbindsArg([vb])], true)
  {
    Oid.FollowsReflexive(Oid.Components(oid));
  }

  // ---------------------------------------------------------------------
  // getBulk (section 4.2.3 of RFC 3416)
  // ---------------------------------------------------------------------

  const UndefinedOid: Error := TypeError("Cannot read property 'oid' of undefined")
  const UndefinedType: Error := TypeError("Cannot read property 'type' of undefined")

  function CountError(respLength: int, nonRepeaters: int): Error
  {
    ResponseInvalidError("Varbind count in response '" + JsNumber.IntText(respLength)
      + "' is less than non-repeaters '" + JsNumber.IntText(nonRepeaters) + "' in request")
  }

  function MultipleError(respLength: int, repeaters: int, nonRepeaters: int): Error
  {
    ResponseInvalidError("Varbind count in response '" + JsNumber.IntText(respLength)
      + "' is not a multiple of repeaters '" + JsNumber.IntText(repeaters)
      + "' plus non-repeaters '" + JsNumber.IntText(nonRepeaters) + "' in request")
  }

  /** The first non-repeater position from i on whose varbind is out of
      order (or has no requested OID to compare with), or n. */
  function FirstBadNonRepeater(reqOids: seq<string>, resp: seq<Varbind>, n: nat, i: nat): (k: nat)
    requires i <= n <= |resp|
    ensures i <= k <= n
    ensures forall j :: i <= j < k ==> IsVarbindError(resp[j]) || (j < |reqOids| && FollowsText(reqOids[j], resp[j].oid))
    decreases n - i
  {
    if i == n then n
    else if !IsVarbindError(resp[i]) && (i >= |reqOids| || !FollowsText(reqOids[i], resp[i].oid)) then i
    else FirstBadNonRepeater(reqOids, resp, n, i + 1)
  }

  /** The error for a bad non-repeater: a missing requested OID throws. */
  function NonRepeaterError(reqOids: seq<string>, resp: seq<Varbind>, k: nat): Error
    requires k < |resp|
  {
    if k >= |reqOids| then UndefinedOid else PrecedeError(reqOids[k], k, resp[k].oid, k)
  }

  /** The non-repeaters as the caller receives them. */
  function Singles(resp: seq<Varbind>, n: nat): (r: seq<BulkEntry>)
    requires n <= |resp|
    ensures |r| == n && forall k :: 0 <= k < n ==> r[k] == Single(resp[k])
  {
    seq(n, k requires 0 <= k < n => Single(resp[k]))
  }

  /** `if (! varbinds[k]) varbinds[k] = []; varbinds[k].push (vb)`: a
      column is started at an unset index (the array grows with holes up to
      it) and extended otherwise. */
  function AddToColumn(entries: seq<BulkEntry>, k: nat, vb: Varbind): (r: seq<BulkEntry>)
    ensures |r| == if k < |entries| then |entries| else k + 1
    ensures forall q :: 0 <= q < |entries| && q != k ==> r[q] == entries[q]
    ensures r[k] == Column((if k < |entries| && entries[k].Column? then entries[k].vbs else []) + [vb])
  {
    if k < |entries| then
      entries[k := Column((if entries[k].Column? then entries[k].vbs else []) + [vb])]
    else
      var r := entries + seq(k - |entries|, _ => Hole) + [Column([vb])];
      assert r[k] == Column([vb]);
      r
  }

  /** Where the repeater scan ends: the error that stops it, or the
      entries it leaves. */
  datatype Scan = Scan(error: Option<Error>, entries: seq<BulkEntry>)

  /** The repeater loop from response position p, which belongs to column j
      (the columns cycle through 0 .. r - 1; a new round starts at column
      0), each varbind checked with ok (InOrder in the callback). A round
      is entered only while p is inside the response, so a round that runs
      past its end reads an undefined varbind. */
  function RepeaterScan(ok: OrderTest, reqOids: seq<string>, resp: seq<Varbind>, n: nat, r: nat, p: nat, j: nat,
                        acc: seq<BulkEntry>): Scan
    requires 0 < r && n + r == |reqOids| && j < r
    decreases |resp| - p
  {
    if p >= |resp| then
      if j == 0 then Scan(None, acc) else Scan(Some(UndefinedType), acc)
    else if ok(reqOids[n + j], resp[p]) then
      RepeaterScan(ok, reqOids, resp, n, r, p + 1, if j + 1 == r then 0 else j + 1, AddToColumn(acc, n + j, resp[p]))
    else Scan(Some(PrecedeError(reqOids[n + j], n + j, resp[p].oid, p)), acc)
  }

  /** The calls of the getBulk feed callback, for the getBulk call's
      nonRepeaters n. The count errors are not followed by a return, so the
      varbinds gathered so far are delivered after them; the multiple test
      divides the whole response length; and with no repeaters (or fewer
      requested OIDs than n) a response with varbinds left over makes the
      loop spin without advancing. */
  function BulkFed(reqOids: seq<string>, resp: seq<Varbind>, n: nat): FeedOutcome
  {
    var short := |resp| < n;
    var k := if short then n else FirstBadNonRepeater(reqOids, resp, n, 0);
    if !short && k < n then FeedOutcome([ErrorArg(NonRepeaterError(reqOids, resp, k))], true)
    else
      var first := if short then [ErrorArg(CountError(|resp|, n))] else [];
      var i0 := if short then 0 else n;
      var acc0 := if short then [] else Singles(resp, n);
      var r := |reqOids| - n;
      var magnitude := if r < 0 then -r else r;
      if r != 0 && |resp| % magnitude != 0 then
        FeedOutcome(first + [ErrorArg(MultipleError(|resp|, r, n)), BulkArg(acc0)], true)
      else if r <= 0 then
        if i0 < |resp| then FeedOutcome(first, false) else FeedOutcome(first + [BulkArg(acc0)], true)
      else
        var s := RepeaterScan(InOrder, reqOids, resp, n, r, i0, 0, acc0);
        if s.error.Some? then FeedOutcome(first + [ErrorArg(s.error.value)], true)
        else FeedOutcome(first + [BulkArg(s.entries)], true)
  }

  /** The getBulk feedCb. */
  method GetBulkFeed(reqOids: seq<string>, resp: seq<Varbind>, nonRepeaters: nat) returns (out: FeedOutcome)
    ensures out == BulkFed(reqOids, resp, nonRepeaters)
  {
    var calls: seq<CallbackArg> := [];
    var varbinds: seq<BulkEntry> := [];
    var i := 0;
    if |resp| < nonRepeaters {
      calls := [ErrorArg(CountError(|resp|, nonRepeaters))];
    } else {
      var bad;
      bad, varbinds := NonRepeatersLoop(reqOids, resp, nonRepeaters);
      if bad.Some? {
        return FeedOutcome([ErrorArg(bad.value)], true);
      }
      i := nonRepeaters;
    }
    var repeaters := |reqOids| - nonRepeaters;
    var magnitude := if repeaters < 0 then -repeaters else repeaters;
    if repeaters != 0 && |resp| % magnitude != 0 {
      calls := calls + [ErrorArg(MultipleError(|resp|, repeaters, nonRepeaters))];
    } else if repeaters <= 0 {
      if i < |resp| {
        return FeedOutcome(calls, false);
      }
    } else {
      var scan := RepeatersLoop(reqOids, resp, nonRepeaters, repeaters, i, varbinds);
      if scan.error.Some? {
        return FeedOutcome(calls + [ErrorArg(scan.error.value)], true);
      }
      varbinds := scan.entries;
    }
    return FeedOutcome(calls + [BulkArg(varbinds)], true);
  }

  /** The non-repeater loop of the getBulk feedCb: the error of the first
      bad non-repeater, or every non-repeater as a single entry. */
  method NonRepeatersLoop(reqOids: seq<string>, resp: seq<Varbind>, n: nat) returns (bad: Option<Error>, varbinds: seq<BulkEntry>)
    requires n <= |resp|
    ensures var k := FirstBadNonRepeater(reqOids, resp, n, 0);
      bad == if k < n then Some(NonRepeaterError(reqOids, resp, k)) else None
    ensures bad.None? ==> varbinds == Singles(resp, n)
  {
    varbinds := [];
    var i := 0;
    while i < n
      invariant 0 <= i <= n
      invariant varbinds == Singles(resp, i)
      invariant FirstBadNonRepeater(reqOids, resp, n, 0) == FirstBadNonRepeater(reqOids, resp, n, i)
    {
      if !IsVarbindError(resp[i]) {
        if i >= |reqOids| {
          return Some(UndefinedOid), varbinds;
        }
        var follows := Oid.OidFollowsOid(reqOids[i], resp[i].oid);
        if !follows {
          return Some(PrecedeError(reqOids[i], i, resp[i].oid, i)), varbinds;
        }
      }
      varbinds := varbinds + [Single(resp[i])];
      i := i + 1;
    }
    return None, varbinds;
  }

  /** The order check of one repeater varbind. */
  method CheckInOrder(reqOid: string, vb: Varbind) returns (b: bool)
    ensures b == InOrder(reqOid, vb)
  {
    b := IsVarbindError(vb);
    if !b {
      b := Oid.OidFollowsOid(reqOid, vb.oid);
    }
  }

  /** The repeater loops of the getBulk feedCb: rounds over the columns
      while the position is inside the response. */
  method RepeatersLoop(reqOids: seq<string>, resp: seq<Varbind>, n: nat, r: nat, i0: nat,
                       acc: seq<BulkEntry>) returns (s: Scan)
    requires 0 < r && n + r == |reqOids|
    ensures s == RepeaterScan(InOrder, reqOids, resp, n, r, i0, 0, acc)
  {
    var i := i0;
    var varbinds := acc;
    while i < |resp|
      invariant RepeaterScan(InOrder, reqOids, resp, n, r, i, 0, varbinds) == RepeaterScan(InOrder, reqOids, resp, n, r, i0, 0, acc)
      decreases |resp| - i
    {
      var stop;
      stop, i, varbinds := RoundLoop(reqOids, resp, n, r, i, varbinds);
      if stop.Some? {
        return stop.value;
      }
    }
    return Scan(None, varbinds);
  }

  /** One round of the repeater loops, over the r columns from position
      i0: the scan's outcome when the round stops it, or the position and
      entries after the round, from which the scan goes on unchanged. */
  method RoundLoop(reqOids: seq<string>, resp: seq<Varbind>, n: nat, r: nat, i0: nat,
                   acc: seq<BulkEntry>) returns (stop: Option<Scan>, i: nat, varbinds: seq<BulkEntry>)
    requires 0 < r && n + r == |reqOids| && i0 < |resp|
    ensures stop.Some? ==> stop.value == RepeaterScan(InOrder, reqOids, resp, n, r, i0, 0, acc)
    ensures stop.None? ==>
      && i == i0 + r
      && RepeaterScan(InOrder, reqOids, resp, n, r, i, 0, varbinds) == RepeaterScan(InOrder, reqOids, resp, n, r, i0, 0, acc)
  {
    i := i0;
    varbinds := acc;
    var j := 0;
    while j < r
      invariant 0 <= j <= r && i == i0 + j
      invariant RepeaterScan(InOrder, reqOids, resp, n, r, i, if j == r then 0 else j, varbinds)
             == RepeaterScan(InOrder, reqOids, resp, n, r, i0, 0, acc)
      decreases r - j
    {
      if i >= |resp| {
        return Some(Scan(Some(UndefinedType), varbinds)), i, varbinds;
      }
      var k := n + j;
      var inOrder := CheckInOrder(reqOids[k], resp[i]);
      if !inOrder {
        return Some(Scan(Some(PrecedeError(reqOids[k], k, resp[i].oid, i)), varbinds)), i, varbinds;
      }
      varbinds := AddToColumn(varbinds, k, resp[i]);
      j := j + 1;
      i := i + 1;
    }
    return None, i, varbinds;
  }

  // ---------------------------------------------------------------------
  // What a well-formed getBulk response yields
  // ---------------------------------------------------------------------

  /** The column after column j in a round of r columns. */
  function NextColumn(j: nat, r: nat): (k: nat)
    requires j < r
    ensures k < r
  {
    if j + 1 == r then 0 else j + 1
  }

  /** The varbinds of resp from position p on that belong to column c, when
      position p belongs to column j. */
  function ColumnFrom(resp: seq<Varbind>, r: nat, c: nat, p: nat, j: nat): seq<Varbind>
    requires j < r
    decreases |resp| - p
  {
    if p >= |resp| then []
    else (if j == c then [resp[p]] else []) + ColumnFrom(resp, r, c, p + 1, NextColumn(j, r))
  }

  /** Every varbind of resp from position p on (position p in column j) is
      an exception or follows the OID its column requested. */
  predicate OrderedFrom(ok: OrderTest, reqOids: seq<string>, resp: seq<Varbind>, n: nat, r: nat, p: nat, j: nat)
    requires 0 < r && n + r == |reqOids| && j < r
    decreases |resp| - p
  {
    p >= |resp| || (ok(reqOids[n + j], resp[p]) && OrderedFrom(ok, reqOids, resp, n, r, p + 1, NextColumn(j, r)))
  }

  /** d more varbinds, starting in column j, end exactly on a round boundary. */
  predicate CompletesRound(d: nat, j: nat, r: nat)
    requires j < r
  {
    if d == 0 then j == 0 else CompletesRound(d - 1, NextColumn(j, r), r)
  }

  /** The varbinds gathered so far at index k of the caller's array. */
  function Gathered(entries: seq<BulkEntry>, k: nat): seq<Varbind>
  {
    if k < |entries| && entries[k].Column? then entries[k].vbs else []
  }

  lemma OrderedFromIff(ok: OrderTest, reqOids: seq<string>, resp: seq<Varbind>, n: nat, r: nat, p: nat, j: nat)
    requires 0 < r && n + r == |reqOids| && j < r
    ensures OrderedFrom(ok, reqOids, resp, n, r, p, j) <==>
      forall q :: p <= q < |resp| ==> ok(reqOids[n + (q - p + j) % r], resp[q])
    decreases |resp| - p
  {
    if p < |resp| {
      OrderedFromIff(ok, reqOids, resp, n, r, p + 1, NextColumn(j, r));
      ShiftAgrees(ok, reqOids, resp, n, r, p, j);
      ModUnique(j, r, 0, j);
      assert (p - p + j) % r == j;
    }
  }

  /** Seen from position p + 1 in the next column, the later varbinds are
      checked against the same columns as seen from position p in column j. */
  lemma ShiftAgrees(ok: OrderTest, reqOids: seq<string>, resp: seq<Varbind>, n: nat, r: nat, p: nat, j: nat)
    requires 0 < r && n + r == |reqOids| && j < r
    ensures forall q :: p + 1 <= q < |resp| ==>
      ok(reqOids[n + (q - (p + 1) + NextColumn(j, r)) % r], resp[q]) == ok(reqOids[n + (q - p + j) % r], resp[q])
  {
    forall q | p + 1 <= q < |resp|
      ensures ok(reqOids[n + (q - (p + 1) + NextColumn(j, r)) % r], resp[q]) == ok(reqOids[n + (q - p + j) % r], resp[q])
    {
      ColumnShift(q - p, j, r);
    }
  }

  /** Moving one position on and one column on names the same column. */
  lemma ColumnShift(d: int, j: nat, r: nat)
    requires 0 < r && j < r && d >= 1
    ensures (d - 1 + NextColumn(j, r)) % r == (d + j) % r
  {
    if j + 1 == r {
      ModMinus(d + j, r);
    }
  }

  /** One varbind out of order in its column breaks the order of a scan
      from the first round on. */
  lemma OrderBroken(ok: OrderTest, reqOids: seq<string>, resp: seq<Varbind>, n: nat, r: nat, q: nat)
    requires 0 < r && n + r == |reqOids| && n <= q < |resp|
    requires !ok(reqOids[n + (q - n) % r], resp[q])
    ensures !OrderedFrom(ok, reqOids, resp, n, r, n, 0)
  {
    OrderedFromIff(ok, reqOids, resp, n, r, n, 0);
    assert q - n + 0 == q - n;
  }

  /** Every varbind in order in its column makes the scan from the first
      round on ordered. */
  lemma RepeatersOrdered(ok: OrderTest, reqOids: seq<string>, resp: seq<Varbind>, n: nat, r: nat)
    requires 0 < r && n + r == |reqOids|
    requires forall q :: n <= q < |resp| ==> ok(reqOids[n + (q - n) % r], resp[q])
    ensures OrderedFrom(ok, reqOids, resp, n, r, n, 0)
  {
    OrderedFromIff(ok, reqOids, resp, n, r, n, 0);
    forall q | n <= q < |resp|
      ensures ok(reqOids[n + (q - n + 0) % r], resp[q])
    {
      assert q - n + 0 == q - n;
    }
  }

  lemma MulAtLeast(a: int, r: int)
    requires a >= 1 && r > 0
    ensures a * r >= r
  {
    assert a * r == (a - 1) * r + r;
    assert (a - 1) * r >= 0;
  }

  /** The remainder is the m of the only x == q * r + m with 0 <= m < r. */
  lemma ModUnique(x: int, r: int, q: int, m: int)
    requires 0 < r && 0 <= m < r && x == q * r + m
    ensures x % r == m
  {
    var q' := x / r;
    var m' := x % r;
    assert q' * r + m' == q * r + m;
    if q' > q {
      assert (q' - q) * r == m - m' by { assert (q' - q) * r == q' * r - q * r; }
      MulAtLeast(q' - q, r);
    } else if q' < q {
      assert (q - q') * r == m' - m by { assert (q - q') * r == q * r - q' * r; }
      MulAtLeast(q - q', r);
    }
  }

  lemma ModMinus(x: int, r: int)
    requires 0 < r <= x
    ensures (x - r) % r == x % r
  {
    var q := x / r;
    var m := x % r;
    assert x - r == (q - 1) * r + m by { assert (q - 1) * r == q * r - r; }
    ModUnique(x - r, r, q - 1, m);
  }

  lemma CompletesRoundIff(d: nat, j: nat, r: nat)
    requires j < r
    ensures CompletesRound(d, j, r) <==> (d + j) % r == 0
  {
    if d > 0 {
      CompletesRoundIff(d - 1, NextColumn(j, r), r);
      if j + 1 == r {
        ModMinus(d + j, r);
      }
    }
  }

  /** A scan over well-ordered varbinds that end on a round boundary fails
      nowhere and leaves one Column entry per repeater after the
      non-repeaters' entries, which it does not touch. */
  lemma {:induction false} ScanSucceeds(ok: OrderTest, reqOids: seq<string>, resp: seq<Varbind>, n: nat, r: nat, p: nat, j: nat,
                                        acc: seq<BulkEntry>)
    requires 0 < r && n + r == |reqOids| && j < r && p <= |resp|
    requires OrderedFrom(ok, reqOids, resp, n, r, p, j) && CompletesRound(|resp| - p, j, r)
    requires n + j <= |acc| <= n + r
    requires forall q :: n <= q < |acc| ==> acc[q].Column?
    ensures RepeaterScan(ok, reqOids, resp, n, r, p, j, acc).error.None?
    ensures var e := RepeaterScan(ok, reqOids, resp, n, r, p, j, acc).entries;
      && |e| == (if p < |resp| then n + r else |acc|)
      && (forall q :: 0 <= q < n ==> e[q] == acc[q])
      && (forall q :: n <= q < |e| ==> e[q].Column?)
    decreases |resp| - p
  {
    if p < |resp| {
      var j' := NextColumn(j, r);
      var acc' := AddToColumn(acc, n + j, resp[p]);
      assert RepeaterScan(ok, reqOids, resp, n, r, p, j, acc) == RepeaterScan(ok, reqOids, resp, n, r, p + 1, j', acc');
      ScanSucceeds(ok, reqOids, resp, n, r, p + 1, j', acc');
    }
  }

  /** A scan over well-ordered varbinds adds each varbind to the column it
      belongs to. */
  lemma {:induction false} ScanGathers(ok: OrderTest, reqOids: seq<string>, resp: seq<Varbind>, n: nat, r: nat, p: nat, j: nat,
                                       acc: seq<BulkEntry>)
    requires 0 < r && n + r == |reqOids| && j < r && p <= |resp|
    requires OrderedFrom(ok, reqOids, resp, n, r, p, j)
    ensures forall c :: 0 <= c < r ==>
      Gathered(RepeaterScan(ok, reqOids, resp, n, r, p, j, acc).entries, n + c) == Gathered(acc, n + c) + ColumnFrom(resp, r, c, p, j)
    decreases |resp| - p
  {
    if p < |resp| {
      var j' := NextColumn(j, r);
      var acc' := AddToColumn(acc, n + j, resp[p]);
      assert RepeaterScan(ok, reqOids, resp, n, r, p, j, acc) == RepeaterScan(ok, reqOids, resp, n, r, p + 1, j', acc');
      ScanGathers(ok, reqOids, resp, n, r, p + 1, j', acc');
      var e := RepeaterScan(ok, reqOids, resp, n, r, p + 1, j', acc').entries;
      forall c | 0 <= c < r
        ensures Gathered(e, n + c) == Gathered(acc, n + c) + ColumnFrom(resp, r, c, p, j)
      {
        GatherStep(acc, e, resp, n, r, c, p, j);
      }
    }
  }

  /** One step of ScanGathers for column c: what the rest of the scan
      gathers after the varbind at p was added is what the whole scan
      gathers from p on. */
  lemma GatherStep(acc: seq<BulkEntry>, e: seq<BulkEntry>, resp: seq<Varbind>, n: nat, r: nat, c: nat, p: nat, j: nat)
    requires j < r && p < |resp|
    requires Gathered(e, n + c) ==
      Gathered(AddToColumn(acc, n + j, resp[p]), n + c) + ColumnFrom(resp, r, c, p + 1, NextColumn(j, r))
    ensures Gathered(e, n + c) == Gathered(acc, n + c) + ColumnFrom(resp, r, c, p, j)
  {
    GatheredAdd(acc, n + j, n + c, resp[p]);
    var g := Gathered(acc, n + c);
    var rest := ColumnFrom(resp, r, c, p + 1, NextColumn(j, r));
    if j == c {
      assert ColumnFrom(resp, r, c, p, j) == [resp[p]] + rest;
      assert (g + [resp[p]]) + rest == g + ([resp[p]] + rest);
    } else {
      assert ColumnFrom(resp, r, c, p, j) == [] + rest;
      assert [] + rest == rest;
    }
  }

  /** Adding a varbind to column k extends what is gathered at k by it and
      leaves what is gathered at any other index as it was. */
  lemma GatheredAdd(acc: seq<BulkEntry>, k: nat, m: nat, vb: Varbind)
    ensures Gathered(AddToColumn(acc, k, vb), m) == Gathered(acc, m) + (if m == k then [vb] else [])
  {
  }

  /** A scan over varbinds that end on a round boundary, one of which is
      out of order, stops with a ResponseInvalidError. */
  lemma {:induction false} ScanRejects(ok: OrderTest, reqOids: seq<string>, resp: seq<Varbind>, n: nat, r: nat, p: nat, j: nat,
                                       acc: seq<BulkEntry>)
    requires 0 < r && n + r == |reqOids| && j < r && p <= |resp|
    requires !OrderedFrom(ok, reqOids, resp, n, r, p, j) && CompletesRound(|resp| - p, j, r)
    ensures var s := RepeaterScan(ok, reqOids, resp, n, r, p, j, acc);
      s.error.Some? && s.error.value.ResponseInvalidError?
    decreases |resp| - p
  {
    if ok(reqOids[n + j], resp[p]) {
      ScanRejects(ok, reqOids, resp, n, r, p + 1, NextColumn(j, r), AddToColumn(acc, n + j, resp[p]));
    }
  }

  /** A getBulk response whose length is a multiple of the repeaters both
      in total and after the non-repeaters, and whose varbinds are all
      exceptions or follow the OIDs they answer, reaches the caller as the
      non-repeaters followed by one column per repeater holding the
      varbinds of that column's positions. */
  lemma BulkAccepts(reqOids: seq<string>, resp: seq<Varbind>, n: nat)
    requires n <= |resp| && n < |reqOids|
    requires |resp| % (|reqOids| - n) == 0 && (|resp| - n) % (|reqOids| - n) == 0
    requires forall k :: 0 <= k < n ==> InOrder(reqOids[k], resp[k])
    requires forall q :: n <= q < |resp| ==> InOrder(reqOids[n + (q - n) % (|reqOids| - n)], resp[q])
    ensures var out := BulkFed(reqOids, resp, n);
      && out.halts && |out.calls| == 1 && out.calls[0].BulkArg?
      && var e := out.calls[0].entries;
      && |e| == (if n < |resp| then |reqOids| else n)
      && (forall k :: 0 <= k < n ==> e[k] == Single(resp[k]))
      && (n < |resp| ==> forall k :: n <= k < |reqOids| ==>
            e[k] == Column(ColumnFrom(resp, |reqOids| - n, k - n, n, 0)))
  {
    var r := |reqOids| - n;
    NonRepeatersPass(reqOids, resp, n);
    RepeatersOrdered(InOrder, reqOids, resp, n, r);
    CompletesRoundIff(|resp| - n, 0, r);
    ScanSucceeds(InOrder, reqOids, resp, n, r, n, 0, Singles(resp, n));
    ScanGathers(InOrder, reqOids, resp, n, r, n, 0, Singles(resp, n));
    BulkFedScans(reqOids, resp, n);
  }

  /** Past the non-repeaters, with repeaters dividing the response length,
      the getBulk callback answers with what the repeater scan finds. */
  lemma BulkFedScans(reqOids: seq<string>, resp: seq<Varbind>, n: nat)
    requires n <= |resp| && n < |reqOids| && |resp| % (|reqOids| - n) == 0
    requires FirstBadNonRepeater(reqOids, resp, n, 0) == n
    ensures var s := RepeaterScan(InOrder, reqOids, resp, n, |reqOids| - n, n, 0, Singles(resp, n));
      BulkFed(reqOids, resp, n) == FeedOutcome([if s.error.Some? then ErrorArg(s.error.value) else BulkArg(s.entries)], true)
  {
  }

  lemma NonRepeatersPass(reqOids: seq<string>, resp: seq<Varbind>, n: nat)
    requires n <= |resp| && n <= |reqOids|
    requires forall k :: 0 <= k < n ==> InOrder(reqOids[k], resp[k])
    ensures FirstBadNonRepeater(reqOids, resp, n, 0) == n
  {
    BadNonRepeaterFound(reqOids, resp, n, 0);
  }

  /** FirstBadNonRepeater stops only at a varbind that fails the check. */
  lemma BadNonRepeaterFound(reqOids: seq<string>, resp: seq<Varbind>, n: nat, i: nat)
    requires i <= n <= |resp|
    ensures var k := FirstBadNonRepeater(reqOids, resp, n, i);
      k < n ==> !IsVarbindError(resp[k]) && (k >= |reqOids| || !FollowsText(reqOids[k], resp[k].oid))
    decreases n - i
  {
    if i < n {
      BadNonRepeaterFound(reqOids, resp, n, i + 1);
    }
  }

  /** Under the same length conditions, a response with any varbind out of
      order is refused with a single ResponseInvalidError. */
  lemma BulkRejects(reqOids: seq<string>, resp: seq<Varbind>, n: nat)
    requires n <= |resp| && n < |reqOids|
    requires |resp| % (|reqOids| - n) == 0 && (|resp| - n) % (|reqOids| - n) == 0
    requires || (exists k :: 0 <= k < n && !InOrder(reqOids[k], resp[k]))
             || (exists q :: n <= q < |resp| && !InOrder(reqOids[n + (q - n) % (|reqOids| - n)], resp[q]))
    ensures var out := BulkFed(reqOids, resp, n);
      out.halts && |out.calls| == 1 && out.calls[0].ErrorArg? && out.calls[0].error.ResponseInvalidError?
  {
    var r := |reqOids| - n;
    if FirstBadNonRepeater(reqOids, resp, n, 0) == n {
      var q := BadRepeater(reqOids, resp, n);
      BulkRejectsRepeater(reqOids, resp, n, q);
    } else {
      BulkRejectsNonRepeater(reqOids, resp, n);
    }
  }

  /** When the scan of the non-repeaters runs to the end, each of them is
      in order. */
  lemma NonRepeatersInOrder(reqOids: seq<string>, resp: seq<Varbind>, n: nat)
    requires n <= |resp|
    requires FirstBadNonRepeater(reqOids, resp, n, 0) == n
    ensures forall k :: 0 <= k < n ==> k < |reqOids| || IsVarbindError(resp[k])
    ensures forall k :: 0 <= k < n && k < |reqOids| ==> InOrder(reqOids[k], resp[k])
  {
  }

  /** With every non-repeater in order, the misplaced varbind is a
      repeater. */
  lemma BadRepeater(reqOids: seq<string>, resp: seq<Varbind>, n: nat) returns (q: nat)
    requires n <= |resp| && n < |reqOids|
    requires FirstBadNonRepeater(reqOids, resp, n, 0) == n
    requires || (exists k :: 0 <= k < n && !InOrder(reqOids[k], resp[k]))
             || (exists q :: n <= q < |resp| && !InOrder(reqOids[n + (q - n) % (|reqOids| - n)], resp[q]))
    ensures n <= q < |resp| && !InOrder(reqOids[n + (q - n) % (|reqOids| - n)], resp[q])
  {
    NonRepeatersInOrder(reqOids, resp, n);
    q :| n <= q < |resp| && !InOrder(reqOids[n + (q - n) % (|reqOids| - n)], resp[q]);
  }

  /** The non-repeater half of BulkRejects: the scan of the first `n`
      varbinds stops early. */
  lemma BulkRejectsNonRepeater(reqOids: seq<string>, resp: seq<Varbind>, n: nat)
    requires n <= |resp| && n <= |reqOids|
    requires FirstBadNonRepeater(reqOids, resp, n, 0) < n
    ensures var out := BulkFed(reqOids, resp, n);
      out.halts && |out.calls| == 1 && out.calls[0].ErrorArg? && out.calls[0].error.ResponseInvalidError?
  {
  }

  /** The repeater half of BulkRejects: the varbind at `q` is out of order. */
  lemma BulkRejectsRepeater(reqOids: seq<string>, resp: seq<Varbind>, n: nat, q: nat)
    requires n <= q < |resp| && n < |reqOids|
    requires |resp| % (|reqOids| - n) == 0 && (|resp| - n) % (|reqOids| - n) == 0
    requires FirstBadNonRepeater(reqOids, resp, n, 0) == n
    requires !InOrder(reqOids[n + (q - n) % (|reqOids| - n)], resp[q])
    ensures var out := BulkFed(reqOids, resp, n);
      out.halts && |out.calls| == 1 && out.calls[0].ErrorArg? && out.calls[0].error.ResponseInvalidError?
  {
    var r := |reqOids| - n;
    OrderBroken(InOrder, reqOids, resp, n, r, q);
    CompletesRoundIff(|resp| - n, 0, r);
    ScanRejects(InOrder, reqOids, resp, n, r, n, 0, Singles(resp, n));
    BulkFedScans(reqOids, resp, n);
  }

  /** The count error does not end the getBulk callback: whenever it
      returns, the caller has been called again after the error. */
  lemma BulkCountFallsThrough(reqOids: seq<string>, resp: seq<Varbind>, n: nat)
    requires |resp| < n
    ensures var out := BulkFed(reqOids, resp, n);
      && out.calls[0] == ErrorArg(CountError(|resp|, n))
      && (out.halts ==> |out.calls| >= 2)
  {
  }

  /** The multiple error does not end the callback either: the caller then
      receives the non-repeaters as well. */
  lemma BulkMultipleFallsThrough(reqOids: seq<string>, resp: seq<Varbind>, n: nat)
    requires n <= |resp| && n != |reqOids|
    requires forall k :: 0 <= k < n ==> k < |reqOids| && InOrder(reqOids[k], resp[k])
    requires var r := |reqOids| - n; |resp| % (if r < 0 then -r else r) != 0
    ensures BulkFed(reqOids, resp, n) == FeedOutcome(
      [ErrorArg(MultipleError(|resp|, |reqOids| - n, n)), BulkArg(Singles(resp, n))], true)
  {
    BadNonRepeaterFound(reqOids, resp, n, 0);
  }

  /** With no repeaters, a response holding more varbinds than there are
      non-repeaters never leaves the loop. */
  lemma BulkZeroRepeatersHangs(reqOids: seq<string>, resp: seq<Varbind>)
    requires |reqOids| < |resp|
    requires forall k :: 0 <= k < |reqOids| ==> InOrder(reqOids[k], resp[k])
    ensures !BulkFed(reqOids, resp, |reqOids|).halts
  {
    BadNonRepeaterFound(reqOids, resp, |reqOids|, 0);
  }

  /** The multiple test divides the whole response length, so one
      non-repeater and two repeaters with four varbinds pass it, and the
      second round reads past the end of the response. */
  lemma BulkTotalLengthQuirk()
    ensures var eom := Varbind("1.3.6", EndOfMibView, NullValue);
      BulkFed(["1.3.6", "1.3.7", "1.3.8"], [eom, eom, eom, eom], 1) == FeedOutcome([ErrorArg(UndefinedType)], true)
  {
    var eom := Varbind("1.3.6", EndOfMibView, NullValue);
    var req := ["1.3.6", "1.3.7", "1.3.8"];
    var resp := [eom, eom, eom, eom];
    var a1 := AddToColumn(Singles(resp, 1), 1, eom);
    var a2 := AddToColumn(a1, 2, eom);
    var a3 := AddToColumn(a2, 1, eom);
    assert RepeaterScan(InOrder, req, resp, 1, 2, 4, 1, a3) == Scan(Some(UndefinedType), a3);
    assert RepeaterScan(InOrder, req, resp, 1, 2, 3, 0, a2) == Scan(Some(UndefinedType), a3);
    assert RepeaterScan(InOrder, req, resp, 1, 2, 2, 1, a1) == Scan(Some(UndefinedType), a3);
    assert RepeaterScan(InOrder, req, resp, 1, 2, 1, 0, Singles(resp, 1)) == Scan(Some(UndefinedType), a3);
  }
}
