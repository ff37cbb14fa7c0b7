/** The loops that cope with a write that takes less than it was given. */
module ShortWrites {
  import opened Limits
  import opened Sequences

  function Min(a: nat, b: nat): nat {
    if a < b then a else b
  }

  // ---------- file2disk: WriteFile ----------

  /** What fwrite_unlocked takes at its k-th call, before clamping to the request. */
  type Grants = nat -> nat

  /** What the first `k` calls are granted. */
  function Given(grants: Grants, k: nat): nat {
    if k == 0 then 0 else Given(grants, k - 1) + grants(k - 1)
  }

  /** The k-th call is a retry, is reached, and takes nothing. */
  ghost predicate StallsAt(len: nat, grants: Grants, k: nat) {
    k > 0 && grants(k) == 0 && (forall j :: 0 < j < k ==> grants(j) > 0) && Given(grants, k) < len
  }

  ghost predicate Stalls(len: nat, grants: Grants) {
    exists k: nat :: StallsAt(len, grants, k)
  }

  /** What append gets into the file. */
  ghost function Accepted(line: string, grants: Grants): (r: string)
    ensures r <= line
    ensures r == line <==> !Stalls(|line|, grants)
  {
    if Stalls(|line|, grants) then
      var k: nat :| StallsAt(|line|, grants, k);
      line[..Given(grants, k)]
    else line
  }

  lemma GivenNext(grants: Grants, k: nat)
    ensures Given(grants, 0) == 0 && Given(grants, k + 1) == Given(grants, k) + grants(k)
  {
  }

  lemma StallsOnce(len: nat, grants: Grants, j: nat, k: nat)
    requires StallsAt(len, grants, j) && StallsAt(len, grants, k)
    ensures j == k
  {
  }

  lemma {:induction false} GivenGrows(grants: Grants, j: nat, k: nat)
    requires j <= k
    ensures Given(grants, j) <= Given(grants, k)
    decreases k
  {
    if j < k {
      GivenGrows(grants, j, k - 1);
    }
  }

  /** A series of calls of which none stalled, and enough was granted. */
  lemma NoStall(len: nat, grants: Grants, calls: nat)
    requires forall j :: 0 < j < calls ==> grants(j) > 0
    requires Given(grants, calls) >= len
    ensures !Stalls(len, grants)
  {
    forall k: nat
      ensures !StallsAt(len, grants, k)
    {
      if k >= calls {
        GivenGrows(grants, calls, k);
      }
    }
  }

  /** How the retries end: all is taken, or a retry took nothing. */
  lemma Ended(line: string, grants: Grants, n: nat, calls: nat)
    requires calls > 0 && forall j :: 0 < j < calls ==> grants(j) > 0
    requires n == Min(Given(grants, calls), |line|) && (n < |line| ==> grants(calls) == 0)
    ensures n < |line| <==> Stalls(|line|, grants)
    ensures forall k: nat :: StallsAt(|line|, grants, k) ==> n == Given(grants, k)
    ensures line[..n] == Accepted(line, grants)
  {
    if n == |line| {
      NoStall(|line|, grants, calls);
      assert line[..n] == line;
    } else {
      assert StallsAt(|line|, grants, calls);
      forall k: nat | StallsAt(|line|, grants, k) { StallsOnce(|line|, grants, k, calls); }
    }
  }

  class WriteFile {
    var contents: string       // everything stdio has accepted
    ghost var lines: seq<string>    // what was passed to append
    ghost var accepted: seq<string> // what reached the file of each

    ghost predicate Valid()
      reads this
    {
      && contents == Flatten(accepted) && |accepted| == |lines|
      && forall i :: 0 <= i < |lines| ==> accepted[i] <= lines[i]
    }

    /** What was passed to append is these messages. */
    ghost predicate WasGiven(messages: seq<string>)
      reads this
    {
      Valid() && Flatten(lines) == Flatten(messages)
    }

    constructor ()
      ensures Valid() && contents == "" && lines == [] && accepted == []
    {
      contents, lines, accepted := "", [], [];
    }

    /** fwrite_unlocked(line, 1, |line|, fp_), told how much it is going to take. */
    method WriteUnlocked(line: string, grant: nat) returns (n: nat)
      modifies this`contents
      ensures n == Min(grant, |line|)
      ensures contents == old(contents) + line[..n]
    {
      n := Min(grant, |line|);
      contents := contents + line[..n];
    }

    /** The loop: `n` characters in `calls` calls, until all is taken or a retry takes nothing. */
    method Deliver(line: string, grants: Grants) returns (n: nat, ghost calls: nat)
      modifies this`contents
      ensures n <= |line| && contents == old(contents) + line[..n]
      ensures calls > 0 && forall j :: 0 < j < calls ==> grants(j) > 0
      ensures n == Min(Given(grants, calls), |line|) && (n < |line| ==> grants(calls) == 0)
    {
      GivenNext(grants, 0);
      hide Given;
      n := WriteUnlocked(line, grants(0));
      var remain, retries := |line| - n, 1;
      while remain > 0
        invariant n <= |line| && remain == |line| - n && retries > 0
        invariant contents == old(contents) + line[..n]
        invariant forall j :: 0 < j < retries ==> grants(j) > 0
        invariant n == Min(Given(grants, retries), |line|)
      {
        var x := WriteUnlocked(line[n..], grants(retries));
        if x == 0 {
          break;
        }
        TakeMore(line, n, x);
        GivenNext(grants, retries);
        n := n + x;
        remain := |line| - n;
        retries := retries + 1;
      }
      calls := retries;
    }

    /**
      The line reaches the file as a whole exactly if no retry that is made takes nothing;
      otherwise it is cut where that retry found it.
     */
    method Append(line: string, grants: Grants) returns (ghost taken: nat)
      requires Valid()
      modifies this
      ensures Valid() && taken <= |line| && contents == old(contents) + line[..taken]
      ensures taken < |line| <==> Stalls(|line|, grants)
      ensures forall k: nat :: StallsAt(|line|, grants, k) ==> taken == Given(grants, k)
      ensures lines == old(lines) + [line] && accepted == old(accepted) + [Accepted(line, grants)]
    {
      hide Flatten, Given, StallsAt, Stalls, Accepted;
      ghost var calls;
      taken, calls := Deliver(line, grants);
      Ended(line, grants, taken, calls);
      FlattenSnoc(accepted, line[..taken]);
      lines, accepted := lines + [line], accepted + [line[..taken]];
    }
  }

  /** Three of five characters, then nothing: two are lost. A retry never made loses none. */
  lemma StalledRetryLoses()
    ensures Accepted("hello", k => if k == 0 then 3 else 0) == "hel"
    ensures Accepted("hello", k => if k == 0 then 3 else if k == 1 then 2 else 0) == "hello"
  {
    var cut: Grants := k => if k == 0 then 3 else 0;
    assert Given(cut, 1) == 3 by { assert Given(cut, 0) == 0; }
    assert StallsAt(5, cut, 1);
    forall k: nat | StallsAt(5, cut, k) { StallsOnce(5, cut, k, 1); }
    var whole: Grants := k => if k == 0 then 3 else if k == 1 then 2 else 0;
    assert Given(whole, 2) == 5 by { assert Given(whole, 1) == 3 by { assert Given(whole, 0) == 0; } }
    NoStall(5, whole, 2);
  }

  // ---------- tools: writen ----------

  /** What write(2) answers; it never takes more than it is offered. */
  datatype Reply = Took(n: nat) | Eintr | Eagain | Failed

  /** How a call of writen ends on a given list of replies; Running: they ran out first. */
  datatype Outcome = Done | Again | Broken | Running

  /** How much of `len` bytes is taken, and how it ends. EAGAIN ends the call if `givesUp`. */
  function Attempt(len: nat, replies: seq<Reply>, givesUp: bool): (r: (nat, Outcome))
    ensures r.0 <= len
    ensures r.1 == Done <==> r.0 == len
    ensures r.1 == Again ==> givesUp && Eagain in replies
    ensures r.1 == Broken ==> Failed in replies
    decreases replies
  {
    if len == 0 then (0, Done)
    else if replies == [] then (0, Running)
    else
      match replies[0]
      case Took(n) =>
        var k := Min(n, len);
        var (m, o) := Attempt(len - k, replies[1..], givesUp);
        (k + m, o)
      case Eintr => Attempt(len, replies[1..], givesUp)
      case Eagain => if givesUp then (0, Again) else Attempt(len, replies[1..], givesUp)
      case Failed => (0, Broken)
  }

  lemma AttemptEnds(replies: seq<Reply>, givesUp: bool)
    ensures Attempt(0, replies, givesUp) == (0, Done)
    ensures forall len: nat :: len > 0 ==> Attempt(len, replies[|replies|..], givesUp) == (0, Running)
  {
  }

  /** One turn of either loop. */
  lemma NextReply(len: nat, replies: seq<Reply>, next: nat, givesUp: bool)
    requires len > 0 && next < |replies|
    ensures var rest := replies[next + 1..];
            Attempt(len, replies[next..], givesUp) ==
            match replies[next]
            case Took(n) => var k := Min(n, len); var (m, o) := Attempt(len - k, rest, givesUp); (k + m, o)
            case Eintr => Attempt(len, rest, givesUp)
            case Eagain => if givesUp then (0, Again) else Attempt(len, rest, givesUp)
            case Failed => (0, Broken)
  {
    assert replies[next..][0] == replies[next] && replies[next..][1..] == replies[next + 1..];
  }

  datatype Returned = Count(n: nat) | Error | StillRunning

  /** A descriptor, and the output string waiting for it. */
  class Output {
    var sent: string    // what the kernel has taken, in order
    var outBuf: string

    constructor (outBuf: string)
      ensures sent == "" && this.outBuf == outBuf
    {
      sent, this.outBuf := "", outBuf;
    }

    /** writen(int, std::string&). On an error the string is left alone. */
    method WritenString(replies: seq<Reply>) returns (r: Returned)
      requires |outBuf| <= INT_MAX
      modifies this
      ensures var (k, o) := Attempt(|old(outBuf)|, replies, true);
              && sent == old(sent) + old(outBuf)[..k]
              && (o == Done || o == Again ==> r == Count(k) && outBuf == old(outBuf)[k..])
              && (o == Broken ==> r == Error && outBuf == old(outBuf))
              && (o == Running ==> r == StillRunning && outBuf == old(outBuf))
    {
      hide Attempt;
      AttemptEnds(replies, true);
      var nleft: nat, writeCnt: nat, next: nat := |outBuf|, 0, 0;
      ghost var was := sent;
      while nleft > 0
        invariant writeCnt + nleft == |outBuf| && next <= |replies|
        invariant outBuf == old(outBuf) && sent == was + outBuf[..writeCnt]
        invariant var (m, o) := Attempt(nleft, replies[next..], true);
                  Attempt(|outBuf|, replies, true) == (writeCnt + m, o)
        decreases |replies| - next
      {
        if next == |replies| {
          return StillRunning;
        }
        var reply := replies[next];
        NextReply(nleft, replies, next, true);
        next := next + 1;
        match reply {
          case Eintr =>
            continue;
          case Eagain =>
            break;
          case Failed =>
            return Error;
          case Took(n) =>
            var nwritten := Min(n, nleft);
            sent := sent + outBuf[writeCnt..writeCnt + nwritten];
            assert outBuf[..writeCnt] + outBuf[writeCnt..writeCnt + nwritten] == outBuf[..writeCnt + nwritten];
            writeCnt := writeCnt + nwritten;
            nleft := nleft - nwritten;
        }
      }
      if writeCnt == |outBuf| {
        outBuf := "";
      } else {
        outBuf := outBuf[writeCnt..];
      }
      return Count(writeCnt);
    }

    /** writen(int, void*, int): it does not give up on EAGAIN. */
    method WritenBytes(buf: string, replies: seq<Reply>) returns (r: Returned)
      requires |buf| <= INT_MAX
      modifies this`sent
      ensures var (k, o) := Attempt(|buf|, replies, false);
              && sent == old(sent) + buf[..k]
              && (o == Done <==> r == Count(|buf|)) && (o == Broken <==> r == Error) && (o == Running <==> r == StillRunning)
    {
      hide Attempt;
      AttemptEnds(replies, false);
      var nleft: nat, writenCnt: nat, next: nat := |buf|, 0, 0;
      while nleft > 0
        invariant writenCnt + nleft == |buf| && next <= |replies|
        invariant sent == old(sent) + buf[..writenCnt]
        invariant var (m, o) := Attempt(nleft, replies[next..], false);
                  Attempt(|buf|, replies, false) == (writenCnt + m, o)
        decreases |replies| - next
      {
        if next == |replies| {
          return StillRunning;
        }
        var reply := replies[next];
        NextReply(nleft, replies, next, false);
        next := next + 1;
        match reply {
          case Eintr =>
            continue;
          case Eagain =>
            continue;
          case Failed =>
            return Error;
          case Took(n) =>
            var nwritten := Min(n, nleft);
            sent := sent + buf[writenCnt..writenCnt + nwritten];
            assert buf[..writenCnt] + buf[writenCnt..writenCnt + nwritten] == buf[..writenCnt + nwritten];
            writenCnt := writenCnt + nwritten;
            nleft := nleft - nwritten;
        }
      }
      return Count(writenCnt);
    }
  }

  // ---------- Repeated calls ----------

  function Total(replies: seq<Reply>): nat {
    if replies == [] then 0
    else Total(replies[..|replies| - 1]) + (match replies[|replies| - 1] case Took(n) => n case _ => 0)
  }

  lemma {:induction false} TotalFromFront(replies: seq<Reply>)
    requires replies != []
    ensures Total(replies) == (match replies[0] case Took(n) => n case _ => 0) + Total(replies[1..])
  {
    if |replies| > 1 {
      TotalFromFront(replies[..|replies| - 1]);
      assert replies[..|replies| - 1][1..] == replies[1..][..|replies| - 2];
    } else {
      assert replies[..0] == [] && replies[1..] == [];
    }
  }

  /** Without an error, and without an EAGAIN that counts, a call sends what the kernel takes, and ends once that is all. */
  lemma {:induction false} SendsWhatIsTaken(len: nat, replies: seq<Reply>, givesUp: bool)
    requires Failed !in replies && (givesUp ==> Eagain !in replies)
    ensures var total := Total(replies);
            Attempt(len, replies, givesUp) == if total >= len then (len, Done) else (total, Running)
    decreases |replies|
  {
    if replies != [] {
      TotalFromFront(replies);
      var n := match replies[0] case Took(n) => n case _ => 0;
      if n < len {
        SendsWhatIsTaken(len - n, replies[1..], givesUp);
      }
      AttemptEnds(replies[1..], givesUp);
    }
  }

  /** The replies that end a call; one of the two versions tries again on EAGAIN. */
  predicate Ends(reply: Reply, givesUp: bool) {
    reply == Failed || (givesUp && reply == Eagain)
  }

  /** Reply `f` is `end`, and reached: nothing ended the call before. */
  predicate StopsAt(len: nat, replies: seq<Reply>, f: nat, end: Reply, givesUp: bool) {
    && f < |replies| && replies[f] == end
    && (forall i :: 0 <= i < f ==> !Ends(replies[i], givesUp))
    && Total(replies[..f]) < len
  }

  predicate BreaksAt(len: nat, replies: seq<Reply>, f: nat) {
    StopsAt(len, replies, f, Failed, true)
  }

  lemma StopsLater(len: nat, replies: seq<Reply>, f: nat, end: Reply, givesUp: bool)
    requires len > 0 && replies != [] && Ends(end, givesUp) && !Ends(replies[0], givesUp)
    ensures var n := match replies[0] case Took(n) => n case _ => 0;
            StopsAt(len, replies, f, end, givesUp) <==> f > 0 && n < len && StopsAt(len - n, replies[1..], f - 1, end, givesUp)
    ensures 0 < f <= |replies| ==>
              Total(replies[..f]) == (match replies[0] case Took(n) => n case _ => 0) + Total(replies[1..][..f - 1])
  {
    if 0 < f <= |replies| {
      TotalFromFront(replies[..f]);
      assert replies[..f][1..] == replies[1..][..f - 1];
      assert forall i :: 0 < i < f ==> replies[i] == replies[1..][i - 1];
    }
  }

  lemma StopsFirst(len: nat, replies: seq<Reply>, end: Reply, givesUp: bool)
    requires Ends(end, givesUp) && (len == 0 || replies == [] || Ends(replies[0], givesUp))
    ensures forall f: nat :: StopsAt(len, replies, f, end, givesUp) <==> f == 0 && len > 0 && replies != [] && replies[0] == end
    ensures Total([]) == 0
  {
  }

  /** A call ends with an error, or gives up, exactly at the first such reply it reaches, after sending what came before. */
  lemma {:induction false} StopsIff(len: nat, replies: seq<Reply>, end: Reply, givesUp: bool)
    requires Ends(end, givesUp)
    ensures Attempt(len, replies, givesUp).1 == (if end == Failed then Broken else Again) <==>
            exists f: nat :: StopsAt(len, replies, f, end, givesUp)
    ensures forall f: nat :: StopsAt(len, replies, f, end, givesUp) ==>
              f < |replies| && Attempt(len, replies, givesUp).0 == Total(replies[..f])
    decreases |replies|
  {
    hide StopsAt, Total;
    assert forall f: nat :: StopsAt(len, replies, f, end, givesUp) ==> f < |replies| by { StopsInside(len, replies, end, givesUp); }
    if len == 0 || replies == [] || Ends(replies[0], givesUp) {
      StopsFirst(len, replies, end, givesUp);
      assert replies[..0] == [];
      if len > 0 && replies != [] && replies[0] == end {
        assert StopsAt(len, replies, 0, end, givesUp);
      }
    } else {
      var n := match replies[0] case Took(n) => n case _ => 0;
      var rest := replies[1..];
      forall f: nat { StopsLater(len, replies, f, end, givesUp); }
      if n < len {
        var left: nat := len - n;
        StopsIff(left, rest, end, givesUp);
        if f: nat :| StopsAt(left, rest, f, end, givesUp) {
          assert StopsAt(len, replies, f + 1, end, givesUp);
        }
      }
    }
  }

  lemma StopsInside(len: nat, replies: seq<Reply>, end: Reply, givesUp: bool)
    ensures forall f: nat :: StopsAt(len, replies, f, end, givesUp) ==> f < |replies|
  {
  }

  lemma BrokenIff(len: nat, replies: seq<Reply>)
    ensures Attempt(len, replies, true).1 == Broken <==> exists f: nat :: BreaksAt(len, replies, f)
    ensures forall f: nat :: BreaksAt(len, replies, f) ==> f <= |replies| && Attempt(len, replies, true).0 == Total(replies[..f])
  {
    hide StopsAt, Total, Attempt;
    StopsIff(len, replies, Failed, true);
    if f: nat :| StopsAt(len, replies, f, Failed, true) {
      assert BreaksAt(len, replies, f);
    }
  }

  /**
    What a series of WritenString calls does to (sent, outBuf), up to the first that
    fails or is still in progress; `repeated` characters at the front of outBuf have then
    been sent already.
   */
  datatype Account = Account(sent: string, outBuf: string, repeated: nat, last: Outcome)

  predicate Finishes(len: nat, replies: seq<Reply>) {
    var o := Attempt(len, replies, true).1;
    o == Done || o == Again
  }

  function Session(sent: string, outBuf: string, calls: seq<seq<Reply>>): Account
    decreases calls
  {
    if calls == [] then Account(sent, outBuf, 0, Done) else
    var (k, o) := Attempt(|outBuf|, calls[0], true);
    if Finishes(|outBuf|, calls[0]) then Session(sent + outBuf[..k], outBuf[k..], calls[1..])
    else Account(sent + outBuf[..k], outBuf, k, o)
  }

  /** The calls before the i-th finish, and the i-th meets an error as its reply `f`. */
  predicate BreaksIn(len: nat, calls: seq<seq<Reply>>, i: nat, f: nat): (b: bool)
    ensures b ==> i < |calls| && f < |calls[i]|
    decreases calls
  {
    calls != [] &&
    if i == 0 then BreaksAt(len, calls[0], f)
    else Finishes(len, calls[0]) && BreaksIn(len - Attempt(len, calls[0], true).0, calls[1..], i - 1, f)
  }

  ghost predicate MeetsError(len: nat, calls: seq<seq<Reply>>) {
    exists i: nat, f: nat :: BreaksIn(len, calls, i, f)
  }

  lemma BreaksInNext(len: nat, calls: seq<seq<Reply>>, i: nat, f: nat)
    requires calls != [] && Finishes(len, calls[0])
    ensures BreaksIn(len, calls, i, f) <==>
            i > 0 && BreaksIn(len - Attempt(len, calls[0], true).0, calls[1..], i - 1, f)
  {
    BrokenIff(len, calls[0]);
  }

  lemma MeetsErrorLater(len: nat, calls: seq<seq<Reply>>)
    requires calls != [] && Finishes(len, calls[0])
    ensures MeetsError(len, calls) <==> MeetsError(len - Attempt(len, calls[0], true).0, calls[1..])
  {
    var left: nat, rest := len - Attempt(len, calls[0], true).0, calls[1..];
    hide BreaksIn, Attempt;
    if MeetsError(len, calls) {
      var i: nat, f: nat :| BreaksIn(len, calls, i, f);
      BreaksInNext(len, calls, i, f);
      assert BreaksIn(left, rest, i - 1, f);
    }
    if MeetsError(left, rest) {
      var i: nat, f: nat :| BreaksIn(left, rest, i, f);
      BreaksInNext(len, calls, i + 1, f);
      assert BreaksIn(len, calls, i + 1, f);
    }
  }

  lemma MeetsErrorNow(len: nat, calls: seq<seq<Reply>>)
    requires calls != [] && !Finishes(len, calls[0])
    ensures MeetsError(len, calls) <==> Attempt(len, calls[0], true).1 == Broken
  {
    BrokenIff(len, calls[0]);
    hide BreaksAt;
    if Attempt(len, calls[0], true).1 == Broken {
      var f: nat :| BreaksAt(len, calls[0], f);
      assert BreaksIn(len, calls, 0, f);
    }
  }

  /**
    Repeated calls lose and reorder nothing, whatever the partial counts. The series ends
    in an error exactly if some call reaches one, and what a caller that goes on then
    sends twice is exactly what that call had sent before it.
   */
  lemma {:induction false} SessionBalances(sent: string, outBuf: string, calls: seq<seq<Reply>>)
    ensures var a := Session(sent, outBuf, calls);
            && a.repeated <= |a.outBuf| && a.repeated <= |a.sent|
            && a.sent + a.outBuf[a.repeated..] == sent + outBuf
            && a.sent[|a.sent| - a.repeated..] == a.outBuf[..a.repeated]
            && (a.last == Broken <==> MeetsError(|outBuf|, calls))
            && (a.last == Done ==> a.repeated == 0) && a.last != Again
    ensures forall i: nat, f: nat :: BreaksIn(|outBuf|, calls, i, f) ==>
              Session(sent, outBuf, calls).repeated == Total(calls[i][..f])
    decreases calls
  {
    if calls != [] {
      var k := Attempt(|outBuf|, calls[0], true).0;
      assert sent + outBuf[..k] + outBuf[k..] == sent + outBuf;
      if Finishes(|outBuf|, calls[0]) {
        SessionBalances(sent + outBuf[..k], outBuf[k..], calls[1..]);
        MeetsErrorLater(|outBuf|, calls);
        forall i: nat, f: nat { BreaksInNext(|outBuf|, calls, i, f); }
      } else {
        MeetsErrorNow(|outBuf|, calls);
        BrokenIff(|outBuf|, calls[0]);
      }
    }
  }

  /** One character of two is sent, the call fails, and the next call sends it again. */
  lemma SentTwice()
    ensures var first := Session("", "ab", [[Took(1), Failed]]);
            && first == Account("a", "ab", 1, Broken)
            && Session(first.sent, first.outBuf, [[Took(2)]]) == Account("aab", "", 0, Done)
  {
    assert Attempt(1, [Failed], true) == (0, Broken);
    assert [Took(1), Failed][1..] == [Failed];
    assert Attempt(2, [Took(1), Failed], true) == (1, Broken);
    assert Attempt(2, [Took(2)], true) == (2, Done);
    assert [[Took(2)]][1..] == [];
  }
}
