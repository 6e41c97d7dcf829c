/** walk, subtree, table and tableColumns: the callbacks that turn the
    responses of repeated getBulk (v2c, v3) or getNext (v1) requests into a
    walk over a part of the MIB.

    The callbacks call each other through the network: walkCb issues the
    next request and is called again with its response. Here that recursion
    is a loop over the sequence of responseCb calls the walk receives, and
    what the walk does with each one is a step function. */
module Walk {
  import opened SnmpTypes
  import opened VarbindCodec
  import opened JsNumber
  import opened Responses
  import Oid
  import Pdu

  // ---------------------------------------------------------------------
  // The pop loops of walkCb and subtreeCb
  // ---------------------------------------------------------------------

  /** How many varbinds of vbs the test picks out. */
  function Count(vbs: seq<Varbind>, drop: Varbind -> bool): (r: nat)
    ensures r <= |vbs|
  {
    if vbs == [] then 0 else Count(vbs[..|vbs| - 1], drop) + (if drop(vbs[|vbs| - 1]) then 1 else 0)
  }

  /** The loop `for (i = length; i > 0; i--) if (drop(vbs[i - 1])) vbs.pop ()`
      from position i of the list as it stands: it tests the element at
      i - 1 but removes the last one. */
  function PopScan(cur: seq<Varbind>, i: nat, drop: Varbind -> bool, popped: bool): (seq<Varbind>, bool)
    requires i <= |cur|
    decreases i
  {
    if i == 0 then (cur, popped)
    else if drop(cur[i - 1]) then PopScan(cur[..|cur| - 1], i - 1, drop, true)
    else PopScan(cur, i - 1, drop, popped)
  }

  /** The whole pop loop over vbs, and whether it popped anything. */
  function Trim(vbs: seq<Varbind>, drop: Varbind -> bool): (seq<Varbind>, bool)
  {
    PopScan(vbs, |vbs|, drop, false)
  }

  lemma {:induction false} PopScanSpec(cur: seq<Varbind>, i: nat, drop: Varbind -> bool, popped: bool)
    requires i <= |cur|
    ensures Count(cur[..i], drop) <= |cur|
    ensures PopScan(cur, i, drop, popped)
         == (cur[..|cur| - Count(cur[..i], drop)], popped || Count(cur[..i], drop) > 0)
    decreases i
  {
    if i == 0 {
      assert cur[..|cur|] == cur;
    } else {
      assert cur[..i][..i - 1] == cur[..i - 1];
      var c := Count(cur[..i - 1], drop);
      if drop(cur[i - 1]) {
        assert Count(cur[..i], drop) == c + 1;
        var shorter := cur[..|cur| - 1];
        assert shorter[..i - 1] == cur[..i - 1];
        PopScanSpec(shorter, i - 1, drop, true);
        assert shorter[..|shorter| - c] == cur[..|cur| - (c + 1)];
      } else {
        assert Count(cur[..i], drop) == c;
        PopScanSpec(cur, i - 1, drop, popped);
      }
    }
  }

  /** The pop loop removes as many varbinds from the end as the test picks
      out anywhere in the list, and reports a pop iff it picked any. */
  lemma {:induction false} TrimSpec(vbs: seq<Varbind>, drop: Varbind -> bool)
    ensures Trim(vbs, drop) == (vbs[..|vbs| - Count(vbs, drop)], Count(vbs, drop) > 0)
  {
    PopScanSpec(vbs, |vbs|, drop, false);
    assert vbs[..|vbs|] == vbs;
  }

  lemma {:induction false} CountAppend(a: seq<Varbind>, b: seq<Varbind>, drop: Varbind -> bool)
    ensures Count(a + b, drop) == Count(a, drop) + Count(b, drop)
    decreases |b|
  {
    if b == [] {
      assert a + b == a;
    } else {
      assert (a + b)[..|a + b| - 1] == a + b[..|b| - 1];
      CountAppend(a, b[..|b| - 1], drop);
    }
  }

  lemma {:induction false} CountNone(a: seq<Varbind>, drop: Varbind -> bool)
    requires forall k :: 0 <= k < |a| ==> !drop(a[k])
    ensures Count(a, drop) == 0
    decreases |a|
  {
    if a != [] {
      CountNone(a[..|a| - 1], drop);
    }
  }

  lemma {:induction false} CountAll(b: seq<Varbind>, drop: Varbind -> bool)
    requires forall k :: 0 <= k < |b| ==> drop(b[k])
    ensures Count(b, drop) == |b|
    decreases |b|
  {
    if b != [] {
      CountAll(b[..|b| - 1], drop);
    }
  }

  /** When the picked-out varbinds are exactly a tail of the list, the
      loop removes exactly that tail. */
  lemma TrimTrailing(a: seq<Varbind>, b: seq<Varbind>, drop: Varbind -> bool)
    requires forall k :: 0 <= k < |a| ==> !drop(a[k])
    requires forall k :: 0 <= k < |b| ==> drop(b[k])
    ensures Trim(a + b, drop) == (a, |b| > 0)
  {
    TrimSpec(a + b, drop);
    CountAppend(a, b, drop);
    CountNone(a, drop);
    CountAll(b, drop);
    assert (a + b)[..|a|] == a;
  }

  /** The loop removes the last element, not the one it examined: of an
      EndOfMibView varbind followed by an ordinary one, the ordinary one
      goes and the EndOfMibView stays. */
  lemma PopsLastNotMatched(end: Varbind, other: Varbind)
    requires end.typ == EndOfMibView && other.typ != EndOfMibView
    ensures Trim([end, other], AtEndOfMib) == ([end], true)
  {
    TrimSpec([end, other], AtEndOfMib);
    assert [end, other][..1] == [end];
  }

  /** The pop loop, in place on the list. */
  method TrimTail(vbs: seq<Varbind>, drop: Varbind -> bool) returns (kept: seq<Varbind>, popped: bool)
    ensures (kept, popped) == Trim(vbs, drop)
  {
    kept, popped := vbs, false;
    var i := |vbs|;
    while i > 0
      invariant 0 <= i <= |kept|
      invariant PopScan(kept, i, drop, popped) == Trim(vbs, drop)
    {
      if drop(kept[i - 1]) {
        kept := kept[..|kept| - 1];
        popped := true;
      }
      i := i - 1;
    }
  }

  // ---------------------------------------------------------------------
  // walkCb
  // ---------------------------------------------------------------------

  /** walkCb's test: an EndOfMibView varbind. */
  function AtEndOfMib(vb: Varbind): bool
  {
    vb.typ == EndOfMibView
  }

  predicate V2(version: int)
  {
    version == Version2c || version == Version3
  }

  /** What the feed of the walk's own request hands walkCb: an error, or
      for v2c and v3 the getBulk array (its first element the column of the
      one requested OID, if any varbind came back), for v1 the getNext
      varbinds. */
  predicate WellShaped(version: int, arg: CallbackArg)
  {
    || arg.ErrorArg?
    || (V2(version) && arg.BulkArg? && (arg.entries == [] || arg.entries[0].Column?))
    || (!V2(version) && arg.VarbindsArg?)
  }

  /** What a feed callback answers for a batch: whether the walk is done,
      or the exception it throws. */
  type Feed = seq<Varbind> -> Result<bool>

  /** What walkCb does with one responseCb call: call doneCb (with null or
      an error), walk on from an OID, or throw from onMsg's outer catch so
      that the session emits the error and doneCb is never called. */
  datatype Step = Done(error: Option<Error>) | Continue(oid: string) | Emitted(thrown: Error)

  /** walkCb before the feed callback: finished, or the varbinds to feed
      and whether trailing EndOfMibView varbinds were removed. */
  datatype Prep = Finish(error: Option<Error>) | Feed(vbs: seq<Varbind>, trimmed: bool)

  const UndefinedZero: Error := TypeError("Cannot read property '0' of undefined")
  const UndefinedLength: Error := TypeError("Cannot read property 'length' of undefined")

  /** A RequestFailedError carrying the NoSuchName status. */
  predicate IsNoSuchName(e: Error)
  {
    e.RequestFailedError? && e.status == StatusCode(NoSuchName)
  }

  /** walkCb up to the feed callback. A NoSuchName failure ends a v1 walk
      quietly; under v2c and v3 it reaches code that reads the missing
      varbinds, and the TypeError thrown there comes back through onMsg as
      a second call with that error. Any other error ends the walk with
      it. */
  function Prepare(version: int, arg: CallbackArg): Prep
    requires WellShaped(version, arg)
  {
    if arg.ErrorArg? then
      if IsNoSuchName(arg.error) then (if V2(version) then Finish(Some(UndefinedZero)) else Finish(None))
      else Finish(Some(arg.error))
    else if V2(version) then
      if arg.entries == [] then Finish(Some(UndefinedLength))
      else
        var (kept, popped) := Trim(arg.entries[0].vbs, AtEndOfMib);
        Feed(kept, popped)
    else Feed(arg.vbs, false)
  }

  /** walkCb after the feed callback answered `fed` for the batch. An
      exception the feed throws comes back through onMsg's inner catch as a
      call with that error. A NoSuchName failure there ends a v1 walk
      quietly; under v2c and v3 the call reads the missing varbinds, and as
      it already runs inside the catch, the TypeError reaches the outer
      catch and is emitted on the session. Otherwise the walk is done when varbinds were trimmed or
      the feed says so; else it goes on from the last varbind's OID (v2c,
      v3) or the first one's (v1). */
  function After(version: int, vbs: seq<Varbind>, trimmed: bool, fed: Result<bool>): Step
  {
    match fed
    case Err(e) =>
      if !IsNoSuchName(e) then Done(Some(e))
      else if V2(version) then Emitted(UndefinedZero)
      else Done(None)
    case Ok(stop) =>
      if trimmed || stop then Done(None)
      else if vbs == [] then Done(Some(UndefinedOid))
      else if V2(version) then Continue(vbs[|vbs| - 1].oid)
      else Continue(vbs[0].oid)
  }

  /** walkCb on one responseCb call. */
  function WalkStep(version: int, arg: CallbackArg, feed: Feed): (s: Step)
    requires WellShaped(version, arg)
    // errors other than NoSuchName end the walk with the error
    ensures arg.ErrorArg? && !IsNoSuchName(arg.error) ==> s == Done(Some(arg.error))
    // NoSuchName ends a v1 walk with doneCb(null)
    ensures arg.ErrorArg? && IsNoSuchName(arg.error) && !V2(version) ==> s == Done(None)
    // under v2c and v3 it reads the missing varbinds and ends with the TypeError
    ensures arg.ErrorArg? && IsNoSuchName(arg.error) && V2(version) ==> s == Done(Some(UndefinedZero))
    // the feed saying so ends the walk with doneCb(null)
    ensures Prepare(version, arg).Feed? && feed(Prepare(version, arg).vbs) == Ok(true) ==> s == Done(None)
    // a feed that throws ends the walk with its exception, unless that is a
    // NoSuchName failure: then a v1 walk ends with doneCb(null) and a v2c/v3
    // walk has the session emit the TypeError, with no doneCb call
    ensures Prepare(version, arg).Feed? && feed(Prepare(version, arg).vbs).Err? ==>
      var e := feed(Prepare(version, arg).vbs).error;
      s == if !IsNoSuchName(e) then Done(Some(e)) else if V2(version) then Emitted(UndefinedZero) else Done(None)
    // the session emits an error only for a feed that throws NoSuchName under v2c and v3
    ensures s.Emitted? ==>
      && V2(version) && Prepare(version, arg).Feed? && feed(Prepare(version, arg).vbs).Err?
      && IsNoSuchName(feed(Prepare(version, arg).vbs).error)
    // v2c, v3: a batch with an EndOfMibView ends the walk once the feed returns
    ensures V2(version) && arg.BulkArg? && arg.entries != []
            && Count(arg.entries[0].vbs, AtEndOfMib) > 0 && feed(Prepare(version, arg).vbs).Ok?
            ==> s == Done(None)
    // the walk goes on only from a varbind the feed was given
    ensures s.Continue? ==>
      && Prepare(version, arg).Feed? && feed(Prepare(version, arg).vbs) == Ok(false)
      && var vbs := Prepare(version, arg).vbs;
         vbs != [] && s.oid == (if V2(version) then vbs[|vbs| - 1].oid else vbs[0].oid)
  {
    var p := Prepare(version, arg);
    if p.Finish? then
      Done(p.error)
    else if V2(version) then
      TrimSpec(arg.entries[0].vbs, AtEndOfMib);
      After(version, p.vbs, p.trimmed, feed(p.vbs))
    else After(version, p.vbs, p.trimmed, feed(p.vbs))
  }

  /** v2c and v3: a batch free of EndOfMibView varbinds that the feed does
      not stop makes the walk go on from its last OID, fed in full. */
  lemma WalkContinuesFromLast(version: int, vbs: seq<Varbind>, rest: seq<BulkEntry>, feed: Feed)
    requires V2(version) && vbs != []
    requires forall k :: 0 <= k < |vbs| ==> vbs[k].typ != EndOfMibView
    requires feed(vbs) == Ok(false)
    ensures Prepare(version, BulkArg([Column(vbs)] + rest)) == Feed(vbs, false)
    ensures WalkStep(version, BulkArg([Column(vbs)] + rest), feed) == Continue(vbs[|vbs| - 1].oid)
  {
    TrimTrailing(vbs, [], AtEndOfMib);
    assert vbs + [] == vbs;
  }

  /** The OIDs the walk requests after its first, and the doneCb calls,
      for a sequence of walkCb steps. */
  function Requests(steps: seq<Step>): seq<string>
  {
    if steps == [] then []
    else Requests(steps[..|steps| - 1]) + (if steps[|steps| - 1].Continue? then [steps[|steps| - 1].oid] else [])
  }

  function Dones(steps: seq<Step>): seq<Option<Error>>
  {
    if steps == [] then []
    else Dones(steps[..|steps| - 1]) + (if steps[|steps| - 1].Done? then [steps[|steps| - 1].error] else [])
  }

  /** The errors the session emits, for a sequence of walkCb steps. */
  function Emits(steps: seq<Step>): seq<Error>
  {
    if steps == [] then []
    else Emits(steps[..|steps| - 1]) + (if steps[|steps| - 1].Emitted? then [steps[|steps| - 1].thrown] else [])
  }

  /** walkCb on each of a sequence of responseCb calls. */
  function Steps(version: int, args: seq<CallbackArg>, feed: Feed): (r: seq<Step>)
    requires forall i :: 0 <= i < |args| ==> WellShaped(version, args[i])
    ensures |r| == |args| && forall i :: 0 <= i < |args| ==> r[i] == WalkStep(version, args[i], feed)
  {
    seq(|args|, i requires 0 <= i < |args| => WalkStep(version, args[i], feed))
  }

  /** Every step either requests the next OID, calls doneCb, or has the
      session emit an error. */
  lemma {:induction false} RequestsAndDones(steps: seq<Step>)
    ensures |Requests(steps)| + |Dones(steps)| + |Emits(steps)| == |steps|
  {
    if steps != [] {
      RequestsAndDones(steps[..|steps| - 1]);
    }
  }

  /** walk: request from `oid` (getBulk with no non-repeaters under v2c and
      v3, getNext under v1), then walkCb on each responseCb call. */
  method Walk(version: int, oid: string, args: seq<CallbackArg>, feed: Feed)
    returns (requested: seq<string>, done: seq<Option<Error>>, emitted: seq<Error>)
    requires forall i :: 0 <= i < |args| ==> WellShaped(version, args[i])
    ensures requested == [oid] + Requests(Steps(version, args, feed))
    ensures done == Dones(Steps(version, args, feed))
    ensures emitted == Emits(Steps(version, args, feed))
    ensures |requested| + |done| + |emitted| == |args| + 1
  {
    requested, done, emitted := [oid], [], [];
    var i := 0;
    while i < |args|
      invariant i <= |args|
      invariant requested == [oid] + Requests(Steps(version, args[..i], feed))
      invariant done == Dones(Steps(version, args[..i], feed))
      invariant emitted == Emits(Steps(version, args[..i], feed))
    {
      var s := WalkStep(version, args[i], feed);
      assert Steps(version, args[..i + 1], feed)[..i] == Steps(version, args[..i], feed);
      match s {
        case Continue(next) => requested := requested + [next];
        case Done(error) => done := done + [error];
        case Emitted(thrown) => emitted := emitted + [thrown];
      }
      i := i + 1;
    }
    assert args[..i] == args;
    RequestsAndDones(Steps(version, args, feed));
  }
  // ---------------------------------------------------------------------
  // subtree
  // ---------------------------------------------------------------------

  /** subtreeCb's test: a varbind outside the subtree rooted at baseOid. */
  function Outside(baseOid: string): Varbind -> bool
  {
    (vb: Varbind) => !Oid.OidInSubtree(baseOid, vb.oid)
  }

  /** subtreeCb on one batch: pop the varbinds outside the subtree, hand
      what is left (if anything) to the caller's feed, and ask the walk to
      stop iff something was popped. An exception the caller's feed throws
      passes through; its answer is not looked at. */
  function SubtreeStep(baseOid: string, user: Feed, vbs: seq<Varbind>): Result<bool>
  {
    var (kept, popped) := Trim(vbs, Outside(baseOid));
    if kept != [] && user(kept).Err? then Err(user(kept).error) else Ok(popped)
  }

  /** The feed subtree hands walk. */
  function SubtreeFeed(baseOid: string, user: Feed): Feed
  {
    (vbs: seq<Varbind>) => SubtreeStep(baseOid, user, vbs)
  }

  /** subtreeCb stops the walk exactly when some varbind of the batch lies
      outside the subtree, whatever the caller's feed answers, unless that
      feed throws on the varbinds kept from the front. */
  lemma SubtreeStopsAtBoundary(baseOid: string, user: Feed, vbs: seq<Varbind>)
    ensures var n := Count(vbs, Outside(baseOid));
            var kept := vbs[..|vbs| - n];
            SubtreeStep(baseOid, user, vbs)
              == if kept != [] && user(kept).Err? then Err(user(kept).error) else Ok(n > 0)
  {
    TrimSpec(vbs, Outside(baseOid));
  }

  /** A batch inside the subtree followed by one outside it: the caller's
      feed gets the inside part and the walk stops iff the outside part is
      non-empty; a caller's feed asking to stop does not stop it. */
  lemma SubtreeIgnoresStop(baseOid: string, user: Feed, inside: seq<Varbind>, outside: seq<Varbind>)
    requires forall k :: 0 <= k < |inside| ==> Oid.OidInSubtree(baseOid, inside[k].oid)
    requires forall k :: 0 <= k < |outside| ==> !Oid.OidInSubtree(baseOid, outside[k].oid)
    requires user(inside).Ok?
    ensures Trim(inside + outside, Outside(baseOid)) == (inside, outside != [])
    ensures SubtreeStep(baseOid, user, inside + outside) == Ok(outside != [])
  {
    TrimTrailing(inside, outside, Outside(baseOid));
  }

  /** subtreeCb, popping in place and then calling the caller's feed. */
  method SubtreeCb(baseOid: string, user: Feed, vbs: seq<Varbind>) returns (r: Result<bool>)
    ensures r == SubtreeStep(baseOid, user, vbs)
  {
    var kept, popped := TrimTail(vbs, Outside(baseOid));
    r := Ok(popped);
    if kept != [] {
      var answer := user(kept);
      if answer.Err? {
        r := Err(answer.error);
      }
    }
  }

  /** subtree: a walk from oid whose feed is subtreeCb over the caller's. */
  method Subtree(version: int, oid: string, args: seq<CallbackArg>, user: Feed)
    returns (requested: seq<string>, done: seq<Option<Error>>, emitted: seq<Error>)
    requires forall i :: 0 <= i < |args| ==> WellShaped(version, args[i])
    ensures requested == [oid] + Requests(Steps(version, args, SubtreeFeed(oid, user)))
    ensures done == Dones(Steps(version, args, SubtreeFeed(oid, user)))
    ensures emitted == Emits(Steps(version, args, SubtreeFeed(oid, user)))
  {
    requested, done, emitted := Walk(version, oid, args, SubtreeFeed(oid, user));
  }
  // ---------------------------------------------------------------------
  // table and tableColumns
  // ---------------------------------------------------------------------

  /** A row maps column numbers, as written in the OID, to values; the
      table maps row indexes to rows. */
  type Row = map<string, Value>
  type Table = map<string, Row>

  /** The exception the table feeds throw on an exception varbind: the
      message they build reads an undefined variable first. */
  const VarbindUndefined: Error := ReferenceError("varbind is not defined")

  /** The first position at or after `from` where pat occurs in s, or -1. */
  function FindText(s: string, pat: string, from: nat): (r: int)
    ensures r == -1 || (from <= r && r + |pat| <= |s| && s[r..r + |pat|] == pat)
    decreases |s| - from
  {
    if from + |pat| > |s| then -1
    else if s[from..from + |pat|] == pat then from
    else FindText(s, pat, from + 1)
  }

  /** FindText finds the first occurrence: pat does not occur at any
      position before the one it returns, nor anywhere when it returns -1. */
  lemma {:induction false} FindTextFirst(s: string, pat: string, from: nat, j: nat)
    requires from <= j && j + |pat| <= |s|
    requires FindText(s, pat, from) == -1 || j < FindText(s, pat, from)
    ensures s[j..j + |pat|] != pat
    decreases |s| - from
  {
    if j > from {
      FindTextFirst(s, pat, from + 1, j);
    }
  }

  /** s.replace(pat, ""): the first occurrence of pat removed. */
  function RemoveFirst(s: string, pat: string): string
  {
    var k := FindText(s, pat, 0);
    if k < 0 then s else s[..k] + s[k + |pat|..]
  }

  /** A character `.` does not match in a JavaScript regular expression. */
  predicate LineTerminator(c: char)
  {
    c == '\n' || c == '\r' || c == '\U{2028}' || c == '\U{2029}'
  }

  /** The end of the run of digits of s starting at i. */
  function DigitRun(s: string, i: nat): (k: nat)
    requires i <= |s|
    ensures i <= k <= |s| && (k < |s| ==> !IsDigit(s[k]))
    ensures forall j :: i <= j < k ==> IsDigit(s[j])
    decreases |s| - i
  {
    if i < |s| && IsDigit(s[i]) then DigitRun(s, i + 1) else i
  }

  /** The match of /^(\d+)\.(.+)$/: the column digits and the row index. */
  function RowKey(rest: string): (r: Option<(string, string)>)
    ensures r.Some? ==> AllDigits(r.value.0) && r.value.0 != [] && r.value.1 != []
                        && rest == r.value.0 + "." + r.value.1
  {
    var k := DigitRun(rest, 0);
    if k == 0 || k + 1 >= |rest| || rest[k] != '.' then None
    else if exists j :: k + 1 <= j < |rest| && LineTerminator(rest[j]) then None
    else
      assert rest == rest[..k] + "." + rest[k + 1..];
      Some((rest[..k], rest[k + 1..]))
  }

  /** The row at index, or a new empty one. */
  function RowIn(table: Table, index: string): Row
  {
    if index in table then table[index] else map[]
  }

  /** The cell an OID addresses under rowOid: the OID with rowOid
      removed must change, be non-empty, match /^(\d+)\.(.+)$/ and name
      a positive column. */
  function CellKey(rowOid: string, oid: string): Option<(string, string)>
  {
    var rest := RemoveFirst(oid, rowOid);
    if rest == "" || rest == oid then None
    else match RowKey(rest)
      case None => None
      case Some(key) => if DigitsValue(key.0) == 0 then None else Some(key)
  }

  /** table[index][col] = value, creating the row when it is missing:
      that cell is set and every other cell kept. */
  function SetCell(table: Table, index: string, col: string, value: Value): (t: Table)
    ensures index in t && col in t[index] && t[index][col] == value
    ensures t.Keys == table.Keys + {index}
    ensures forall i :: i in table && i != index ==> t[i] == table[i]
    ensures forall c :: c in RowIn(table, index) && c != col ==> c in t[index] && t[index][c] == table[index][c]
    ensures t[index].Keys == RowIn(table, index).Keys + {col}
  {
    table[index := RowIn(table, index)[col := value]]
  }

  /** One iteration of tableFeedCb or tableColumnsFeedCb. */
  function TableStep(table: Table, rowOid: string, vb: Varbind): Result<Table>
  {
    if IsVarbindError(vb) then Err(VarbindUndefined)
    else match CellKey(rowOid, vb.oid)
      case None => Ok(table)
      case Some((col, index)) => Ok(SetCell(table, index, col, vb.value))
  }

  /** The table after a batch, and the exception that cut it short. */
  datatype Fold = Fold(table: Table, error: Option<Error>)

  function TableFold(table: Table, rowOid: string, vbs: seq<Varbind>): Fold
    decreases |vbs|
  {
    if vbs == [] then Fold(table, None)
    else match TableStep(table, rowOid, vbs[0])
      case Err(e) => Fold(table, Some(e))
      case Ok(t) => TableFold(t, rowOid, vbs[1..])
  }

  /** A batch fails iff one of its varbinds is an exception, and always
      with the ReferenceError. */
  lemma {:induction false} FoldFails(table: Table, rowOid: string, vbs: seq<Varbind>)
    ensures TableFold(table, rowOid, vbs).error.Some?
            <==> exists k :: 0 <= k < |vbs| && IsVarbindError(vbs[k])
    ensures TableFold(table, rowOid, vbs).error.Some?
            ==> TableFold(table, rowOid, vbs).error == Some(VarbindUndefined)
    decreases |vbs|
  {
    if vbs != [] && !IsVarbindError(vbs[0]) {
      FoldFails(TableStep(table, rowOid, vbs[0]).value, rowOid, vbs[1..]);
      if exists k :: 0 <= k < |vbs| && IsVarbindError(vbs[k]) {
        var k :| 0 <= k < |vbs| && IsVarbindError(vbs[k]);
        assert vbs[1..][k - 1] == vbs[k];
      }
    }
  }

  /** Removing a prefix that occurs first at the start leaves the rest. */
  lemma RemovePrefix(prefix: string, rest: string)
    ensures RemoveFirst(prefix + rest, prefix) == rest
  {
    var s := prefix + rest;
    assert s[0..|prefix|] == prefix;
    assert s[..0] + s[|prefix|..] == rest;
  }

  /** The digit run of `<digits>.<index>` ends at the dot. */
  lemma DigitRunOf(col: string, index: string)
    requires AllDigits(col)
    ensures DigitRun(col + "." + index, 0) == |col|
  {
    var rest := col + "." + index;
    var k := DigitRun(rest, 0);
    assert rest[|col|] == '.';
    assert forall j :: 0 <= j < |col| ==> rest[j] == col[j];
  }

  /** The pattern splits `<digits>.<index>` at the dot after the digits. */
  lemma RowKeyOf(col: string, index: string)
    requires AllDigits(col) && col != [] && index != []
    requires forall j :: 0 <= j < |index| ==> !LineTerminator(index[j])
    ensures RowKey(col + "." + index) == Some((col, index))
  {
    var rest := col + "." + index;
    DigitRunOf(col, index);
    assert rest[|col|] == '.';
    assert rest[|col| + 1..] == index;
    assert rest[..|col|] == col;
    forall j | |col| + 1 <= j < |rest| ensures !LineTerminator(rest[j]) {
      assert rest[j] == index[j - |col| - 1];
    }
  }

  /** An OID `<rowOid><column>.<index>` addresses cell [index][column],
      the column keyed as written, when the column is positive and the
      index free of line terminators; column 0 addresses no cell. */
  lemma CellKeyOf(rowOid: string, col: string, index: string)
    requires rowOid != [] && AllDigits(col) && col != [] && index != []
    requires forall j :: 0 <= j < |index| ==> !LineTerminator(index[j])
    ensures CellKey(rowOid, rowOid + (col + "." + index))
            == if DigitsValue(col) > 0 then Some((col, index)) else None
  {
    var rest := col + "." + index;
    RemovePrefix(rowOid, rest);
    assert |rest| < |rowOid + rest|;
    RowKeyOf(col, index);
  }

  /** Such a varbind sets cell [index][column] to its value, keyed as
      written, and leaves every other cell as it was. */
  lemma CellOf(table: Table, rowOid: string, col: string, index: string, vb: Varbind)
    requires rowOid != [] && AllDigits(col) && col != [] && DigitsValue(col) > 0 && index != []
    requires forall j :: 0 <= j < |index| ==> !LineTerminator(index[j])
    requires !IsVarbindError(vb) && vb.oid == rowOid + (col + "." + index)
    ensures TableStep(table, rowOid, vb) == Ok(SetCell(table, index, col, vb.value))
  {
    CellKeyOf(rowOid, col, index);
  }

  /** The table feeds' request state: the row OID, the columns still to
      walk (tableColumns), and the table so far. */
  class TableReq {
    const rowOid: string
    var columns: seq<int>
    var table: Table

    constructor(oid: string, columns: seq<int>)
      ensures rowOid == oid + ".1." && this.columns == columns && table == map[]
    {
      rowOid := oid + ".1.";
      this.columns := columns;
      table := map[];
    }

    /** tableFeedCb / tableColumnsFeedCb: fold the batch into the table,
        throwing at the first exception varbind. Returns nothing. */
    method FeedCb(vbs: seq<Varbind>) returns (r: Result<bool>)
      modifies this
      ensures TableFold(old(table), rowOid, vbs) == Fold(table, if r.Err? then Some(r.error) else None)
      ensures r.Ok? ==> r.value == false
      ensures columns == old(columns)
    {
      var i := 0;
      while i < |vbs|
        invariant i <= |vbs| && columns == old(columns)
        invariant TableFold(table, rowOid, vbs[i..]) == TableFold(old(table), rowOid, vbs)
      {
        assert vbs[i..][1..] == vbs[i + 1..];
        var step := TableStep(table, rowOid, vbs[i]);
        if step.Err? {
          return Err(step.error);
        }
        table := step.value;
        i := i + 1;
      }
      return Ok(false);
    }

    /** Feed a subtree walk's batches, then its doneCb argument, to
        tableResponseCb / tableColumnsResponseCb. */
    method RunWalk(w: ColumnWalk) returns (a: TableAnswer)
      modifies this
      ensures a == WalkOutcome(old(table), rowOid, w)
      ensures a.TableDone? ==> table == a.table
      ensures columns == old(columns)
    {
      var i := 0;
      while i < |w.batches|
        invariant i <= |w.batches| && columns == old(columns)
        invariant WalkOutcome(table, rowOid, ColumnWalk(w.batches[i..], w.end)) == WalkOutcome(old(table), rowOid, w)
      {
        assert w.batches[i..][0] == w.batches[i] && w.batches[i..][1..] == w.batches[i + 1..];
        var r := FeedCb(w.batches[i]);
        if r.Err? {
          return TableFailed(r.error);
        }
        i := i + 1;
      }
      if w.end.Some? {
        return TableFailed(w.end.value);
      }
      return TableDone(table);
    }

    /** columns.pop(). */
    method PopColumn() returns (c: int)
      requires columns != []
      modifies this
      ensures c == old(columns)[|old(columns)| - 1] && columns == old(columns)[..|old(columns)| - 1]
      ensures table == old(table)
    {
      c := columns[|columns| - 1];
      columns := columns[..|columns| - 1];
    }

    /** The subtree walk of the column just popped, and what
        tableColumnsResponseCb does when it ends: answer with the error,
        answer with the table when no column is left, or pop the next
        column and walk its subtree. */
    method WalkColumns(column: int, walks: seq<ColumnWalk>) returns (walked: seq<string>, answer: Option<TableAnswer>)
      modifies this
      ensures walked == ColumnWalks(ColumnOid(rowOid), old(columns) + [column], walks, old(table), OutcomeUnder(rowOid)).0
      ensures answer == ColumnWalks(ColumnOid(rowOid), old(columns) + [column], walks, old(table), OutcomeUnder(rowOid)).1
      decreases |columns|
    {
      ghost var cols := columns + [column];
      assert cols[..|cols| - 1] == columns;
      var here := rowOid + IntText(column);
      assert here == ColumnOid(rowOid)(column);
      if walks == [] {
        return [here], None;
      }
      ghost var before := table;
      var result := RunWalk(walks[0]);
      assert result == OutcomeUnder(rowOid)(before, walks[0]);
      if result.TableFailed? || |columns| == 0 {
        ColumnWalksStops(ColumnOid(rowOid), cols, walks, before, OutcomeUnder(rowOid));
        return [here], Some(result);
      }
      ColumnWalksGoesOn(ColumnOid(rowOid), cols, walks, before, OutcomeUnder(rowOid));
      ghost var rest := ColumnWalks(ColumnOid(rowOid), columns, walks[1..], table, OutcomeUnder(rowOid));
      assert ColumnWalks(ColumnOid(rowOid), cols, walks, before, OutcomeUnder(rowOid)) == ([here] + rest.0, rest.1);
      var next := PopColumn();
      assert columns + [next] == cols[..|cols| - 1];
      var later;
      later, answer := WalkColumns(next, walks[1..]);
      assert later == rest.0 && answer == rest.1;
      walked := [here] + later;
    }
  }

  /** What one subtree walk hands the table code: the batches subtreeCb
      feeds it, in order, and the argument of the walk's doneCb. */
  datatype ColumnWalk = ColumnWalk(batches: seq<seq<Varbind>>, end: Option<Error>)

  /** What the caller's responseCb receives. */
  datatype TableAnswer = TableFailed(error: Error) | TableDone(table: Table)

  /** The answer after one walk: an exception thrown on a batch ends the
      walk with it, so it reaches the responseCb; else the doneCb error,
      else the table. */
  function WalkOutcome(table: Table, rowOid: string, w: ColumnWalk): TableAnswer
    decreases |w.batches|
  {
    if w.batches == [] then
      if w.end.Some? then TableFailed(w.end.value) else TableDone(table)
    else
      var f := TableFold(table, rowOid, w.batches[0]);
      if f.error.Some? then TableFailed(f.error.value)
      else WalkOutcome(f.table, rowOid, ColumnWalk(w.batches[1..], w.end))
  }

  /** A walk whose batches hold no exception varbind answers with its
      doneCb error, or with a table; one with such a varbind fails. */
  lemma {:induction false} WalkFails(table: Table, rowOid: string, w: ColumnWalk)
    ensures WalkOutcome(table, rowOid, w).TableFailed?
            <==> w.end.Some? || exists b, k :: 0 <= b < |w.batches| && 0 <= k < |w.batches[b]| && IsVarbindError(w.batches[b][k])
    ensures (forall b, k :: 0 <= b < |w.batches| && 0 <= k < |w.batches[b]| ==> !IsVarbindError(w.batches[b][k]))
            ==> WalkOutcome(table, rowOid, w) == (if w.end.Some? then TableFailed(w.end.value) else TableDone(WalkOutcome(table, rowOid, w).table))
    decreases |w.batches|
  {
    if w.batches != [] {
      FoldFails(table, rowOid, w.batches[0]);
      var f := TableFold(table, rowOid, w.batches[0]);
      var rest := ColumnWalk(w.batches[1..], w.end);
      WalkFails(f.table, rowOid, rest);
      if exists b, k :: 0 <= b < |w.batches| && 0 <= k < |w.batches[b]| && IsVarbindError(w.batches[b][k]) {
        var b, k :| 0 <= b < |w.batches| && 0 <= k < |w.batches[b]| && IsVarbindError(w.batches[b][k]);
        if b > 0 {
          assert rest.batches[b - 1] == w.batches[b];
        }
      }
      if exists b, k :: 0 <= b < |rest.batches| && 0 <= k < |rest.batches[b]| && IsVarbindError(rest.batches[b][k]) {
        var b, k :| 0 <= b < |rest.batches| && 0 <= k < |rest.batches[b]| && IsVarbindError(rest.batches[b][k]);
        assert w.batches[b + 1] == rest.batches[b];
      }
    }
  }

  /** table: one subtree walk under oid, folded into an empty table. */
  method TableOf(oid: string, w: ColumnWalk) returns (answer: TableAnswer)
    ensures answer == WalkOutcome(map[], oid + ".1.", w)
  {
    var req := new TableReq(oid, []);
    answer := req.RunWalk(w);
  }

  /** How a walk ends, given the table it starts from. */
  type Outcome = (Table, ColumnWalk) -> TableAnswer

  /** The walk outcome under rowOid. */
  function OutcomeUnder(rowOid: string): Outcome
  {
    (t: Table, w: ColumnWalk) => WalkOutcome(t, rowOid, w)
  }

  /** tableColumns from the column cols[|cols| - 1] on, given the walks of
      that column and the ones after it: the subtrees requested and the
      answer, None while a walk is still to come. */
  function ColumnWalks(name: int -> string, cols: seq<int>, walks: seq<ColumnWalk>, table: Table, outcome: Outcome)
    : (seq<string>, Option<TableAnswer>)
    requires cols != []
    decreases |cols|
  {
    var here := [name(cols[|cols| - 1])];
    if walks == [] then (here, None)
    else match outcome(table, walks[0])
      case TableFailed(e) => (here, Some(TableFailed(e)))
      case TableDone(t) =>
        if |cols| == 1 then (here, Some(TableDone(t)))
        else
          var (later, a) := ColumnWalks(name, cols[..|cols| - 1], walks[1..], t, outcome);
          (here + later, a)
  }

  /** A walk that fails, or the last column's walk, gives the answer. */
  lemma ColumnWalksStops(name: int -> string, cols: seq<int>, walks: seq<ColumnWalk>, table: Table, outcome: Outcome)
    requires cols != [] && walks != []
    requires outcome(table, walks[0]).TableFailed? || |cols| == 1
    ensures ColumnWalks(name, cols, walks, table, outcome)
            == ([name(cols[|cols| - 1])], Some(outcome(table, walks[0])))
  {
  }

  /** A walk that succeeds with columns left goes on with the next. */
  lemma ColumnWalksGoesOn(name: int -> string, cols: seq<int>, walks: seq<ColumnWalk>, table: Table, outcome: Outcome)
    requires |cols| > 1 && walks != [] && outcome(table, walks[0]).TableDone?
    ensures var r := ColumnWalks(name, cols[..|cols| - 1], walks[1..], outcome(table, walks[0]).table, outcome);
            ColumnWalks(name, cols, walks, table, outcome)
              == ([name(cols[|cols| - 1])] + r.0, r.1)
  {
  }

  /** tableColumns: no column, no walk and no answer at all. */
  function ColumnsRun(oid: string, columns: seq<int>, walks: seq<ColumnWalk>): (seq<string>, Option<TableAnswer>)
  {
    if columns == [] then ([], None) else ColumnWalks(ColumnOid(oid + ".1."), columns, walks, map[], OutcomeUnder(oid + ".1."))
  }

  /** A table comes back only after every column was walked, and no
      answer only when the walks ran out. */
  lemma {:induction false} ColumnsCount(name: int -> string, cols: seq<int>, walks: seq<ColumnWalk>, table: Table, outcome: Outcome)
    requires cols != []
    ensures var r := ColumnWalks(name, cols, walks, table, outcome);
            && 1 <= |r.0| <= |cols|
            && (r.1.Some? && r.1.value.TableDone? ==> |r.0| == |cols|)
            && (r.1.None? ==> |r.0| == |walks| + 1)
    decreases |cols|
  {
    if walks != [] {
      var o := outcome(table, walks[0]);
      if o.TableFailed? || |cols| == 1 {
        ColumnWalksStops(name, cols, walks, table, outcome);
      } else {
        ColumnWalksGoesOn(name, cols, walks, table, outcome);
      }
      if o.TableDone? && |cols| > 1 {
        ColumnsCount(name, cols[..|cols| - 1], walks[1..], o.table, outcome);
      }
    }
  }

  /** The subtree OID of a column. */
  function ColumnOid(rowOid: string): int -> string
  {
    (c: int) => rowOid + IntText(c)
  }

  /** The names of the columns, last column first. */
  function Reversed(name: int -> string, cols: seq<int>): (r: seq<string>)
  {
    seq(|cols|, k requires 0 <= k < |cols| => name(cols[|cols| - 1 - k]))
  }

  /** The subtrees walked are those of the columns, from the last column
      to the first, as far as the walks went. */
  lemma {:induction false} ColumnsWalkedInOrder(name: int -> string, cols: seq<int>, walks: seq<ColumnWalk>, table: Table, outcome: Outcome)
    requires cols != []
    ensures var r := ColumnWalks(name, cols, walks, table, outcome);
            |r.0| <= |cols| && r.0 == Reversed(name, cols)[..|r.0|]
    decreases |cols|
  {
    ColumnsCount(name, cols, walks, table, outcome);
    if walks != [] {
      var o := outcome(table, walks[0]);
      if o.TableFailed? || |cols| == 1 {
        ColumnWalksStops(name, cols, walks, table, outcome);
      } else {
        ColumnWalksGoesOn(name, cols, walks, table, outcome);
      }
      if o.TableDone? && |cols| > 1 {
        var shorter := cols[..|cols| - 1];
        ColumnsWalkedInOrder(name, shorter, walks[1..], o.table, outcome);
        var later := ColumnWalks(name, shorter, walks[1..], o.table, outcome).0;
        var here := [name(cols[|cols| - 1])];
        var all := Reversed(name, shorter);
        assert Reversed(name, cols) == here + all by {
          forall k | 1 <= k < |cols| ensures Reversed(name, cols)[k] == all[k - 1] {
            assert shorter[|shorter| - 1 - (k - 1)] == cols[|cols| - 1 - k];
          }
        }
        assert (here + all)[..1 + |later|] == here + all[..|later|];
      }
    }
  }

  /** The k-th subtree walked is that of the k-th column from the end. */
  lemma ColumnsNamedInReverse(name: int -> string, cols: seq<int>, walks: seq<ColumnWalk>, table: Table, outcome: Outcome)
    requires cols != []
    ensures var walked := ColumnWalks(name, cols, walks, table, outcome).0;
            |walked| <= |cols| && forall k :: 0 <= k < |walked| ==> walked[k] == name(cols[|cols| - 1 - k])
  {
    ColumnsWalkedInOrder(name, cols, walks, table, outcome);
  }

  /** tableColumns walks the columns' subtrees from the last column to the
      first. */
  lemma ColumnsInReverse(oid: string, columns: seq<int>, walks: seq<ColumnWalk>)
    ensures var walked := ColumnsRun(oid, columns, walks).0;
            |walked| <= |columns|
            && forall k :: 0 <= k < |walked| ==> walked[k] == oid + ".1." + IntText(columns[|columns| - 1 - k])
  {
    if columns != [] {
      ColumnsNamedInReverse(ColumnOid(oid + ".1."), columns, walks, map[], OutcomeUnder(oid + ".1."));
    }
  }

  /** tableColumns: pop the last column and walk its subtree; no column,
      no walk. */
  method TableColumns(oid: string, columns: seq<int>, walks: seq<ColumnWalk>)
    returns (walked: seq<string>, answer: Option<TableAnswer>)
    ensures walked == ColumnsRun(oid, columns, walks).0
    ensures answer == ColumnsRun(oid, columns, walks).1
  {
    var req := new TableReq(oid, columns);
    if |req.columns| == 0 {
      return [], None;
    }
    var column := req.PopColumn();
    assert req.columns + [column] == columns;
    walked, answer := req.WalkColumns(column, walks);
  }
}
