/**
 The call stack of a validation, rebuilt from the flat list of enter and exit records that the
 tracer emits.
 */
module CallStack {
  import opened Basics
  import opened Hex

  /** A record of the tracer. An exit carries `gasUsed` and `data`, an enter the other fields. */
  datatype Record = Record(
    kind: string, source: string, target: string, selector: string, gas: string, gasUsed: string, data: string)
  {
    predicate Exits() { kind == "RETURN" || kind == "REVERT" }
  }

  /** A finished call. */
  datatype Call = Call(
    target: string, source: string, kind: string, selector: string, gas: string, gasUsed: string, data: string,
    returnType: string)

  const VALIDATE_PAYMASTER_USER_OP: string := "0xf465c77e"

  function Decimal(n: nat): string {
    if n < 10 then [DIGITS[n]] else Decimal(n / 10) + [DIGITS[n % 10]]
  }

  /** The caller of everything, which has no enter record. */
  const TOP := Record("top", "", "", "validateUserOp", "", "", "")

  /** The call that an enter and an exit record make up. Of a CREATE only the length of what it
      returned is kept. */
  function Paired(enter: Record, exit: Record): Call {
    if enter.kind == "CREATE" then
      Call(enter.target, enter.source, enter.kind, "", enter.gas, exit.gasUsed, "len=" + Decimal(|exit.data|), "")
    else
      Call(enter.target, enter.source, enter.kind, enter.selector, enter.gas, exit.gasUsed, exit.data,
           if enter.kind == "REVERT" then "REVERT" else "RETURN")
  }

  // Well-nested calls

  datatype Frame = Frame(enter: Record, children: seq<Frame>, exit: Record)

  ghost predicate WellNested(fs: seq<Frame>) {
    fs == [] ||
    (!fs[0].enter.Exits() && fs[0].exit.Exits() && WellNested(fs[0].children) && WellNested(fs[1..]))
  }

  /** The records of a forest, in the order in which they happen. */
  ghost function Records(fs: seq<Frame>): seq<Record> {
    if fs == [] then []
    else [fs[0].enter] + Records(fs[0].children) + [fs[0].exit] + Records(fs[1..])
  }

  /** The calls of a forest, each after the calls it makes. */
  ghost function PostOrder(fs: seq<Frame>): seq<Call> {
    if fs == [] then []
    else PostOrder(fs[0].children) + [Paired(fs[0].enter, fs[0].exit)] + PostOrder(fs[1..])
  }

  // Any list of records

  /** The calls finished by a list of records, given the calls that are open. */
  ghost function Finished(records: seq<Record>, open: seq<Record>): seq<Call>
    decreases |records|
  {
    if records == [] then []
    else if !records[0].Exits() then Finished(records[1..], open + [records[0]])
    else if open == [] then [Paired(TOP, records[0])] + Finished(records[1..], [])
    else [Paired(open[|open| - 1], records[0])] + Finished(records[1..], open[..|open| - 1])
  }

  ghost predicate IsPaymasterCall(c: Call, paymaster: string) {
    c.target == paymaster && c.selector == VALIDATE_PAYMASTER_USER_OP
  }

  ghost function LastPaymasterCall(calls: seq<Call>, paymaster: string): Option<Call> {
    if calls == [] then None
    else if IsPaymasterCall(calls[|calls| - 1], paymaster) then Some(calls[|calls| - 1])
    else LastPaymasterCall(calls[..|calls| - 1], paymaster)
  }

  method ParseCallStack(records: seq<Record>, paymaster: string)
    returns (results: seq<Call>, paymasterCall: Option<Call>)
    ensures results == Finished(records, [])
    ensures paymasterCall == LastPaymasterCall(results, paymaster)
  {
    var stack: seq<Record> := [];
    results, paymasterCall := [], None;
    for i := 0 to |records|
      invariant Finished(records, []) == results + Finished(records[i..], stack)
      invariant paymasterCall == LastPaymasterCall(results, paymaster)
    {
      var record := records[i];
      assert records[i..][0] == record && records[i..][1..] == records[i + 1..];
      if record.Exits() {
        var top := TOP;
        if |stack| > 0 {
          top := stack[|stack| - 1];
          stack := stack[..|stack| - 1];
        }
        var result := Paired(top, record);
        assert (results + [result])[..|results|] == results;
        if paymaster == result.target && result.selector == VALIDATE_PAYMASTER_USER_OP {
          paymasterCall := Some(result);
        }
        results := results + [result];
      } else {
        stack := stack + [record];
      }
    }
  }

  // What the parser recovers

  /** Whatever follows, and whatever is open, the records of a forest yield its post-order, each
      exit paired with its own enter, and leave the open calls as they were. */
  lemma {:induction false} ForestRecovered(fs: seq<Frame>, rest: seq<Record>, open: seq<Record>)
    requires WellNested(fs)
    ensures Finished(Records(fs) + rest, open) == PostOrder(fs) + Finished(rest, open)
    decreases fs
  {
    if fs == [] {
      assert Records(fs) + rest == rest;
    } else {
      var (f, after) := (fs[0], Records(fs[1..]) + rest);
      var inner := [f.exit] + after;
      Regroup([f.enter], Records(f.children), [f.exit], after);
      Associates([f.enter] + Records(f.children) + [f.exit], Records(fs[1..]), rest);
      assert Records(fs) + rest == [f.enter] + (Records(f.children) + inner);
      Enters(f.enter, Records(f.children) + inner, open);
      ForestRecovered(f.children, inner, open + [f.enter]);
      Exits(f.enter, f.exit, after, open);
      ForestRecovered(fs[1..], rest, open);
      var (a, b, c) := (PostOrder(f.children), [Paired(f.enter, f.exit)], PostOrder(fs[1..]));
      Regroup(a, b, c, Finished(rest, open));
    }
  }

  lemma Enters(enter: Record, rest: seq<Record>, open: seq<Record>)
    requires !enter.Exits()
    ensures Finished([enter] + rest, open) == Finished(rest, open + [enter])
  {
    assert ([enter] + rest)[1..] == rest;
  }

  lemma Regroup<T>(a: seq<T>, b: seq<T>, c: seq<T>, d: seq<T>)
    ensures a + (b + (c + d)) == a + b + c + d
  {
  }

  lemma Exits(enter: Record, exit: Record, rest: seq<Record>, open: seq<Record>)
    requires exit.Exits()
    ensures Finished([exit] + rest, open + [enter]) == [Paired(enter, exit)] + Finished(rest, open)
  {
    assert ([exit] + rest)[1..] == rest && (open + [enter])[..|open|] == open;
  }

  /** A validation: a well-nested forest of calls and the exit of the top-level call. */
  lemma ValidationRecovered(fs: seq<Frame>, last: Record)
    requires WellNested(fs) && last.Exits()
    ensures Finished(Records(fs) + [last], []) == PostOrder(fs) + [Paired(TOP, last)]
  {
    ForestRecovered(fs, [last], []);
    assert Finished([last], []) == [Paired(TOP, last)] + Finished([], []);
  }

  // The paymaster's call

  /** The frames of a forest, each after the frames inside it. */
  ghost function Frames(fs: seq<Frame>): seq<Frame> {
    if fs == [] then [] else Frames(fs[0].children) + [fs[0]] + Frames(fs[1..])
  }

  ghost predicate CallsPaymaster(f: Frame, paymaster: string) {
    f.enter.kind != "CREATE" && f.enter.target == paymaster && f.enter.selector == VALIDATE_PAYMASTER_USER_OP
  }

  /** Each call is the frame's at its place. */
  ghost predicate AreCallsOf(calls: seq<Call>, frames: seq<Frame>) {
    |calls| == |frames| && forall i :: 0 <= i < |frames| ==> calls[i] == Paired(frames[i].enter, frames[i].exit)
  }

  lemma AreCallsConcat(a: seq<Call>, f: seq<Frame>, b: seq<Call>, g: seq<Frame>)
    requires AreCallsOf(a, f) && AreCallsOf(b, g)
    ensures AreCallsOf(a + b, f + g)
  {
  }

  lemma {:induction false} PostOrderOfFrames(fs: seq<Frame>)
    ensures AreCallsOf(PostOrder(fs), Frames(fs))
    decreases fs
  {
    if fs != [] {
      var call := Paired(fs[0].enter, fs[0].exit);
      PostOrderOfFrames(fs[0].children);
      PostOrderOfFrames(fs[1..]);
      AreCallsConcat(PostOrder(fs[0].children), Frames(fs[0].children), [call], [fs[0]]);
      AreCallsConcat(PostOrder(fs[0].children) + [call], Frames(fs[0].children) + [fs[0]],
        PostOrder(fs[1..]), Frames(fs[1..]));
    }
  }

  lemma {:induction false} LastPaymasterCallIs(calls: seq<Call>, paymaster: string)
    ensures var r := LastPaymasterCall(calls, paymaster);
            && (r.None? ==> forall i :: 0 <= i < |calls| ==> !IsPaymasterCall(calls[i], paymaster))
            && (r.Some? ==> exists i :: 0 <= i < |calls| && calls[i] == r.value && IsPaymasterCall(calls[i], paymaster)
                                        && forall j :: i < j < |calls| ==> !IsPaymasterCall(calls[j], paymaster))
  {
    if calls != [] && !IsPaymasterCall(calls[|calls| - 1], paymaster) {
      LastPaymasterCallIs(calls[..|calls| - 1], paymaster);
    }
  }

  /** The last frame that calls the paymaster's validation method. */
  ghost predicate IsLastCall(frames: seq<Frame>, i: int, paymaster: string) {
    && 0 <= i < |frames| && CallsPaymaster(frames[i], paymaster)
    && forall j :: i < j < |frames| ==> !CallsPaymaster(frames[j], paymaster)
  }

  lemma LastOfPaired(frames: seq<Frame>, calls: seq<Call>, paymaster: string)
    requires |calls| == |frames| + 1 && !IsPaymasterCall(calls[|frames|], paymaster)
    requires forall i :: 0 <= i < |frames| ==> calls[i] == Paired(frames[i].enter, frames[i].exit)
    ensures var r := LastPaymasterCall(calls, paymaster);
            && (r.None? <==> forall f :: f in frames ==> !CallsPaymaster(f, paymaster))
            && (r.Some? <==> exists i :: IsLastCall(frames, i, paymaster))
            && (forall i :: IsLastCall(frames, i, paymaster) ==> r == Some(Paired(frames[i].enter, frames[i].exit)))
  {
    LastPaymasterCallIs(calls, paymaster);
    forall i | 0 <= i < |frames|
      ensures IsPaymasterCall(calls[i], paymaster) <==> CallsPaymaster(frames[i], paymaster) {
      assert calls[i] == Paired(frames[i].enter, frames[i].exit);
    }
    if LastPaymasterCall(calls, paymaster).Some? {
      var i :| 0 <= i < |calls| && calls[i] == LastPaymasterCall(calls, paymaster).value
               && IsPaymasterCall(calls[i], paymaster)
               && forall j :: i < j < |calls| ==> !IsPaymasterCall(calls[j], paymaster);
      assert IsLastCall(frames, i, paymaster) && frames[i] in frames;
    }
  }

  /** The paymaster's call is the last frame, in post-order, that calls the paymaster's validation
      method and is not a CREATE; there is none exactly when no frame does. */
  lemma PaymasterCallIsLastFrame(fs: seq<Frame>, last: Record, paymaster: string)
    requires WellNested(fs) && last.Exits()
    ensures var (r, frames) := (LastPaymasterCall(Finished(Records(fs) + [last], []), paymaster), Frames(fs));
            && (r.None? <==> forall f :: f in frames ==> !CallsPaymaster(f, paymaster))
            && (r.Some? <==> exists i :: IsLastCall(frames, i, paymaster))
            && (forall i :: IsLastCall(frames, i, paymaster) ==> r == Some(Paired(frames[i].enter, frames[i].exit)))
  {
    ValidationRecovered(fs, last);
    PostOrderOfFrames(fs);
    LastOfPaired(Frames(fs), PostOrder(fs) + [Paired(TOP, last)], paymaster);
  }

  // Return types

  ghost predicate NoneExits(open: seq<Record>) { forall i :: 0 <= i < |open| ==> !open[i].Exits() }

  /** No finished call is ever marked as reverted, whatever the records: the mark is taken from the
      open call's own kind, and a record of kind REVERT is never opened. */
  lemma {:induction false} NeverReverted(records: seq<Record>, open: seq<Record>)
    requires NoneExits(open)
    ensures forall i :: 0 <= i < |Finished(records, open)| ==> Finished(records, open)[i].returnType != "REVERT"
    decreases |records|
  {
    if records != [] {
      if !records[0].Exits() {
        NeverReverted(records[1..], open + [records[0]]);
      } else if open == [] {
        NeverReverted(records[1..], []);
      } else {
        NeverReverted(records[1..], open[..|open| - 1]);
        assert !open[|open| - 1].Exits();
      }
    }
  }
}
