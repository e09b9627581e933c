/** The seccomp supervisor: the double-checked read of a pathname from the target's memory, and the loop that
    answers notifications.  What the kernel returns is an arbitrary script of receptions. */
module Supervisor {
  import opened Basics

  const PATH_MAX: nat := 4096
  const SYS_MKDIR: int := 83
  const EINVAL: int := 22
  const EOPNOTSUPP: int := 95
  const FLAG_CONTINUE: nat := 1

  const TMP: seq<Byte> := [47, 116, 109, 112, 47]   // "/tmp/"
  const DOT: seq<Byte> := [46, 47]                  // "./"
  const BYE: seq<Byte> := [47, 98, 121, 101, 0]     // "/bye" with its terminator

  /** How the attempt to read the target's memory went.  The two validity checks and the read between them
      happen at the given times; pread returns nread, with that many bytes when it is positive. */
  datatype Reading = NoFile | Opened(check1: nat, readAt: nat, nread: int, bytes: seq<Byte>, check2: nat)

  predicate Timely(r: Reading) {
    r.Opened? ==>
      && r.check1 <= r.readAt <= r.check2
      && r.nread <= PATH_MAX && |r.bytes| == (if r.nread > 0 then r.nread else 0)
  }

  /** One return of SECCOMP_IOCTL_NOTIF_RECV, with the outcome of the mkdir the supervisor may then make. */
  datatype Reception =
    | Interrupted
    | Failed
    | Request(id: nat, nr: int, reading: Reading, mkdirErrno: nat)

  datatype Reply = Reply(id: nat, error: int, val: int, flags: nat)

  /** A notification id is valid from its reception until some time, and never again. */
  type Lifetimes = nat -> nat

  predicate ValidAt(until: Lifetimes, id: nat, time: nat) {
    time < until(id)
  }

  /** getTargetPathname's verdict. */
  predicate PathOk(until: Lifetimes, id: nat, r: Reading) {
    && r.Opened?
    && ValidAt(until, id, r.check1)
    && r.nread > 0
    && ValidAt(until, id, r.check2)
    && 0 in r.bytes
  }

  /** A pathname is good exactly if it was read, the target is still there at the end, and there is a terminator among
      the bytes read, however few they are. */
  lemma PathOkExact(until: Lifetimes, id: nat, r: Reading)
    requires Timely(r)
    ensures PathOk(until, id, r) <==> r.Opened? && r.check2 < until(id) && 0 in r.bytes
  {
  }

  /** The path buffer after getTargetPathname: the read overwrites its front once the first check passed. */
  function BufferAfter(until: Lifetimes, id: nat, r: Reading, buffer: seq<Byte>): seq<Byte> {
    if r.Opened? && ValidAt(until, id, r.check1) && |r.bytes| <= |buffer| then r.bytes + buffer[|r.bytes|..] else buffer
  }

  /** The number of bytes before the terminator. */
  function StrLen(s: seq<Byte>): (n: nat)
    requires 0 in s
    ensures n < |s| && s[n] == 0 && 0 !in s[..n]
  {
    if s[0] == 0 then 0
    else
      assert 0 in s[1..];
      1 + StrLen(s[1..])
  }

  /** The reply to a request whose pathname was read into buffer. */
  function Answer(q: Reception, ok: bool, buffer: seq<Byte>): Reply
    requires q.Request? && (ok ==> 0 in buffer)
  {
    if !ok then Reply(q.id, -EINVAL, 0, 0)
    else if TMP <= buffer then
      if q.mkdirErrno == 0 then Reply(q.id, 0, StrLen(buffer), 0) else Reply(q.id, 0 - q.mkdirErrno, 0, 0)
    else if DOT <= buffer then Reply(q.id, 0, 0, FLAG_CONTINUE)
    else Reply(q.id, -EOPNOTSUPP, 0, 0)
  }

  lemma OkIsTerminated(until: Lifetimes, id: nat, r: Reading, buffer: seq<Byte>)
    requires Timely(r) && |buffer| == PATH_MAX
    ensures PathOk(until, id, r) ==> 0 in BufferAfter(until, id, r, buffer)
  {
    if PathOk(until, id, r) {
      var i :| 0 <= i < |r.bytes| && r.bytes[i] == 0;
      assert BufferAfter(until, id, r, buffer)[i] == 0;
    }
  }

  /** All replies the supervisor attempts on a script, starting with the given buffer. */
  function Replies(until: Lifetimes, script: seq<Reception>, buffer: seq<Byte>): seq<Reply>
    requires |buffer| == PATH_MAX && forall i :: 0 <= i < |script| && script[i].Request? ==> Timely(script[i].reading)
  {
    if script == [] || script[0].Failed? then []
    else if script[0].Interrupted? then Replies(until, script[1..], buffer)
    else if script[0].nr != SYS_MKDIR then []
    else
      var q := script[0];
      var buffer' := BufferAfter(until, q.id, q.reading, buffer);
      OkIsTerminated(until, q.id, q.reading, buffer);
      var reply := Answer(q, PathOk(until, q.id, q.reading), buffer');
      [reply] + if BYE <= buffer' then [] else Replies(until, script[1..], buffer')
  }

  /** getTargetPathname. */
  method GetTargetPathname(until: Lifetimes, id: nat, r: Reading, path: array<Byte>) returns (ok: bool)
    requires path.Length == PATH_MAX && Timely(r)
    modifies path
    ensures ok <==> r.Opened? && r.check2 < until(id) && 0 in r.bytes
    ensures forall i :: 0 <= i < PATH_MAX ==>
              path[i] == if r.Opened? && r.check1 < until(id) && i < |r.bytes| then r.bytes[i] else old(path[i])
    ensures ok == PathOk(until, id, r)
    ensures path[..] == BufferAfter(until, id, r, old(path[..]))
  {
    PathOkExact(until, id, r);
    if r.NoFile? {
      return false;
    }
    if !ValidAt(until, id, r.check1) {
      return false;
    }
    forall i | 0 <= i < |r.bytes| {
      path[i] := r.bytes[i];
    }
    if r.nread <= 0 {
      return false;
    }
    if !ValidAt(until, id, r.check2) {
      return false;
    }
    var len := 0;
    while len < r.nread && path[len] != 0
      invariant 0 <= len <= r.nread
      invariant 0 !in path[..len]
    {
      len := len + 1;
    }
    assert path[..r.nread] == r.bytes;
    assert len < r.nread ==> r.bytes[len] == 0;
    return len < r.nread;
  }

  /** What a reply may say about a request when this path is in the buffer: it carries the request's id; a rejected path
      gets EINVAL; the target may go on exactly with a path of its own directory, and then error and value are zero; a
      value goes back only for a directory made, and is the length of its path; the caller sees the errno of a failed
      mkdir; every other path is refused. */
  predicate Proper(q: Reception, ok: bool, path: seq<Byte>, reply: Reply)
    requires q.Request?
  {
    && reply.id == q.id
    && (reply.flags == 0 || (reply.flags == FLAG_CONTINUE && reply.error == reply.val == 0))
    && (reply.flags == FLAG_CONTINUE <==> ok && DOT <= path)
    && (!ok ==> reply.error == -EINVAL && reply.val == 0)
    && (reply.val != 0 ==> ok && TMP <= path && q.mkdirErrno == 0)
    && (ok && TMP <= path ==> reply.error == 0 - q.mkdirErrno)
    && (ok && TMP <= path && q.mkdirErrno == 0 ==>
          0 <= reply.val < |path| && path[reply.val] == 0 && 0 !in path[..reply.val])
    && (ok && !(TMP <= path) && !(DOT <= path) ==> reply.error == -EOPNOTSUPP)
  }

  /** The part of handleNotifications that fills in the response. */
  method Respond(q: Reception, ok: bool, path: array<Byte>) returns (reply: Reply)
    requires q.Request? && path.Length == PATH_MAX && (ok ==> 0 in path[..])
    ensures Proper(q, ok, path[..], reply)
  {
    reply := Reply(q.id, 0, 0, 0);
    assert TMP <= path[..] ==> path[1] == TMP[1];
    assert DOT <= path[..] ==> path[1] == DOT[1];
    if !ok {
      reply := reply.(error := -EINVAL);
    } else if path[..|TMP|] == TMP {
      if q.mkdirErrno == 0 {
        reply := reply.(error := 0, val := StrLen(path[..]));
      } else {
        reply := reply.(error := 0 - q.mkdirErrno);
      }
    } else if path[..|DOT|] == DOT {
      reply := reply.(error := 0, val := 0, flags := FLAG_CONTINUE);
    } else {
      reply := reply.(error := -EOPNOTSUPP);
    }
  }

  /** There is one proper reply, so the specification names it. */
  lemma ProperIsAnswer(q: Reception, ok: bool, path: seq<Byte>, reply: Reply)
    requires q.Request? && |path| == PATH_MAX && (ok ==> 0 in path) && Proper(q, ok, path, reply)
    ensures reply == Answer(q, ok, path)
  {
    assert TMP <= path ==> path[1] == TMP[1];
    assert DOT <= path ==> path[1] == DOT[1];
    if ok && TMP <= path && q.mkdirErrno == 0 {
      assert forall i :: 0 <= i < reply.val ==> path[i] == path[..reply.val][i];
      StrLenUnique(path, reply.val);
    }
  }

  /** One turn of the loop in the specification. */
  lemma NextReply(until: Lifetimes, script: seq<Reception>, next: nat, buffer: seq<Byte>)
    requires AllTimely(script) && |buffer| == PATH_MAX && next < |script|
    ensures var q, rest := script[next], script[next + 1..];
            && AllTimely(script[next..]) && AllTimely(rest)
            && Replies(until, script[next..], buffer) ==
                 if q.Interrupted? then Replies(until, rest, buffer)
                 else if q.Failed? || q.nr != SYS_MKDIR then []
                 else
                   var buffer' := BufferAfter(until, q.id, q.reading, buffer);
                   (OkIsTerminated(until, q.id, q.reading, buffer);
                    [Answer(q, PathOk(until, q.id, q.reading), buffer')] +
                    if BYE <= buffer' then [] else Replies(until, rest, buffer'))
  {
    assert script[next..][0] == script[next] && script[next..][1..] == script[next + 1..];
  }

  /** handleNotifications: the replies it attempts to send, one after another. */
  method HandleNotifications(until: Lifetimes, script: seq<Reception>, path: array<Byte>) returns (sent: seq<Reply>)
    requires path.Length == PATH_MAX && AllTimely(script)
    modifies path
    ensures sent == Replies(until, script, old(path[..]))
    ensures AllAnswered(until, Expected(script), sent, old(path[..]))
  {
    EveryRequestAnswered(until, script, path[..]);
    hide BufferAfter, PathOk, Answer, Proper, Timely, ValidAt;
    sent := [];
    var next := 0;
    ghost var all := Replies(until, script, path[..]);
    assert script[0..] == script;
    while next < |script|
      invariant 0 <= next <= |script| && AllTimely(script[next..])
      invariant all == sent + Replies(until, script[next..], path[..])
    {
      NextReply(until, script, next, path[..]);
      hide *;
      var q := script[next];
      next := next + 1;
      if q.Interrupted? {
        continue;
      }
      if q.Failed? || q.nr != SYS_MKDIR {
        return;
      }
      TimelyAt(script, next - 1);
      var reply := HandleRequest(until, q, path);
      ghost var before := sent;
      sent := sent + [reply];
      var stop := SaysBye(path);
      if stop {
        return;
      }
      OneMoreSent(before, reply, Replies(until, script[next..], path[..]));
    }
  }

  /** Does the buffer start with the stop word? */
  method SaysBye(path: array<Byte>) returns (stop: bool)
    requires path.Length == PATH_MAX
    ensures stop <==> BYE <= path[..]
  {
    assert path[..|BYE|] == path[..][..|BYE|];
    stop := path[..|BYE|] == BYE;
  }

  lemma OneMoreSent(sent: seq<Reply>, reply: Reply, rest: seq<Reply>)
    ensures sent + ([reply] + rest) == sent + [reply] + rest
  {
  }

  lemma TimelyAt(script: seq<Reception>, i: nat)
    requires AllTimely(script) && i < |script| && script[i].Request?
    ensures Timely(script[i].reading)
  {
  }

  /** One request: read its path, fill in the response. */
  method HandleRequest(until: Lifetimes, q: Reception, path: array<Byte>) returns (reply: Reply)
    requires path.Length == PATH_MAX && q.Request? && Timely(q.reading)
    modifies path
    ensures path[..] == BufferAfter(until, q.id, q.reading, old(path[..]))
    ensures PathOk(until, q.id, q.reading) ==> 0 in path[..]
    ensures reply == Answer(q, PathOk(until, q.id, q.reading), path[..])
  {
    hide BufferAfter, PathOk, Answer, Proper, Timely;
    ghost var before := path[..];
    var ok := GetTargetPathname(until, q.id, q.reading, path);
    OkIsTerminated(until, q.id, q.reading, before);
    reply := Respond(q, ok, path);
    ProperIsAnswer(q, ok, path[..], reply);
  }

  // ---------- what the replies promise ----------

  /** The mkdir requests received before the loop's first fatal reception. */
  function Expected(script: seq<Reception>): seq<Reception> {
    if script == [] || script[0].Failed? then []
    else if script[0].Interrupted? then Expected(script[1..])
    else if script[0].nr != SYS_MKDIR then []
    else [script[0]] + Expected(script[1..])
  }

  /** The place of the first reception that ends the loop: a failure, or a request of another kind. */
  predicate FatalAt(script: seq<Reception>, fatal: nat) {
    && fatal <= |script|
    && (forall i :: 0 <= i < fatal ==> script[i].Interrupted? || (script[i].Request? && script[i].nr == SYS_MKDIR))
    && (fatal < |script| ==> script[fatal].Failed? || (script[fatal].Request? && script[fatal].nr != SYS_MKDIR))
  }

  predicate IsRequest(q: Reception) {
    q.Request?
  }

  predicate Same(q: Reception, r: Reception) {
    q == r
  }

  /** These are the requests before it, in order; receptions that were interrupted are passed over. */
  ghost predicate ReceivedAt(script: seq<Reception>, requests: seq<Reception>, places: seq<nat>, fatal: nat) {
    fatal <= |script| && Selected(script[..fatal], IsRequest, Same, requests, places)
  }

  /** One more reception in front that does not end the loop. */
  lemma OneMoreReceived(q: Reception, script: seq<Reception>, requests: seq<Reception>, places: seq<nat>, fatal: nat)
    requires ReceivedAt(script, requests, places, fatal)
    ensures !q.Request? ==> ReceivedAt([q] + script, requests, Later(places), fatal + 1)
    ensures q.Request? ==> ReceivedAt([q] + script, [q] + requests, [0] + Later(places), fatal + 1)
  {
    assert ([q] + script)[..fatal + 1] == [q] + script[..fatal];
    hide Selected;
    if q.Request? {
      SelectedFirst(script[..fatal], IsRequest, Same, requests, places, q, q);
    } else {
      SelectedBefore(script[..fatal], IsRequest, Same, requests, places, q);
    }
  }

  lemma FatalLater(q: Reception, script: seq<Reception>, fatal: nat)
    requires FatalAt(script, fatal) && (q.Interrupted? || (q.Request? && q.nr == SYS_MKDIR))
    ensures FatalAt([q] + script, fatal + 1)
  {
  }

  /** The requests to be answered are the mkdir requests before the first failure, or request of another kind, in
      order: receptions that were interrupted are passed over. */
  lemma {:induction false} ExpectedExact(script: seq<Reception>) returns (places: seq<nat>, fatal: nat)
    ensures FatalAt(script, fatal) && ReceivedAt(script, Expected(script), places, fatal)
  {
    if script == [] || script[0].Failed? || (script[0].Request? && script[0].nr != SYS_MKDIR) {
      places, fatal := [], 0;
      SelectedNone(IsRequest, Same);
      assert script[..0] == [];
    } else {
      assert script == [script[0]] + script[1..];
      hide ReceivedAt, FatalAt;
      places, fatal := ExpectedExact(script[1..]);
      FatalLater(script[0], script[1..], fatal);
      OneMoreReceived(script[0], script[1..], Expected(script[1..]), places, fatal);
      places := if script[0].Request? then [0] + Later(places) else Later(places);
      fatal := fatal + 1;
    }
  }

  predicate AllTimely(script: seq<Reception>) {
    forall i :: 0 <= i < |script| && script[i].Request? ==> Timely(script[i].reading)
  }

  /** An accepted pathname was read while its notification was valid, from bytes that hold a terminator, and what
      the buffer then starts with is what was read, whatever was in it before. */
  lemma AcceptedIsFresh(until: Lifetimes, id: nat, r: Reading, buffer: seq<Byte>, word: seq<Byte>)
    requires Timely(r) && |buffer| == PATH_MAX && PathOk(until, id, r)
    requires |word| <= PATH_MAX && forall i :: 0 <= i < |word| - 1 ==> word[i] != 0
    ensures r.readAt < until(id)
    ensures word <= BufferAfter(until, id, r, buffer) <==> word <= r.bytes
    ensures 0 in BufferAfter(until, id, r, buffer) && StrLen(BufferAfter(until, id, r, buffer)) == StrLen(r.bytes)
  {
    var b := BufferAfter(until, id, r, buffer);
    OkIsTerminated(until, id, r, buffer);
    var n := StrLen(r.bytes);
    assert b[..|r.bytes|] == r.bytes;
    assert b[n] == 0 && (n < |word| - 1 ==> word[n] != b[n]);
    assert forall i :: 0 <= i < |r.bytes| ==> b[i] == r.bytes[i];
    StrLenUnique(b, n);
  }

  lemma {:induction false} StrLenUnique(s: seq<Byte>, n: nat)
    requires n < |s| && s[n] == 0 && forall i :: 0 <= i < n ==> s[i] != 0
    ensures 0 in s && StrLen(s) == n
  {
    assert forall i :: 0 <= i < StrLen(s) ==> s[i] == s[..StrLen(s)][i];
  }

  /** What one reply may say about its request. */
  ghost predicate Honest(until: Lifetimes, q: Reception, reply: Reply)
    requires q.Request? && Timely(q.reading)
  {
    && reply.id == q.id
    && (reply.flags == FLAG_CONTINUE || reply.flags == 0)
    && (reply.flags == FLAG_CONTINUE ==> reply.error == 0 && reply.val == 0)
    && (reply.val != 0 ==> reply.error == 0 && reply.flags == 0)
    && if q.reading.Opened? && q.reading.check2 < until(q.id) && 0 in q.reading.bytes then
         && q.reading.readAt < until(q.id)
         && (reply.flags == FLAG_CONTINUE <==> DOT <= q.reading.bytes)
         && (TMP <= q.reading.bytes ==>
               reply.error == 0 - q.mkdirErrno && reply.val == if q.mkdirErrno == 0 then StrLen(q.reading.bytes) else 0)
         && (!(DOT <= q.reading.bytes) ==> reply.flags == 0)
         && (!(TMP <= q.reading.bytes) && !(DOT <= q.reading.bytes) ==> reply.error == -EOPNOTSUPP)
       else reply.error == -EINVAL && reply.flags == 0
  }

  lemma AnswerIsHonest(until: Lifetimes, q: Reception, buffer: seq<Byte>)
    requires q.Request? && Timely(q.reading) && |buffer| == PATH_MAX
    requires PathOk(until, q.id, q.reading) ==> 0 in BufferAfter(until, q.id, q.reading, buffer)
    ensures Honest(until, q, Answer(q, PathOk(until, q.id, q.reading), BufferAfter(until, q.id, q.reading, buffer)))
  {
    PathOkExact(until, q.id, q.reading);
    if PathOk(until, q.id, q.reading) {
      AcceptedIsFresh(until, q.id, q.reading, buffer, TMP);
      AcceptedIsFresh(until, q.id, q.reading, buffer, DOT);
      assert TMP <= q.reading.bytes ==> q.reading.bytes[1] == TMP[1];
      assert DOT <= q.reading.bytes ==> q.reading.bytes[1] == DOT[1];
    }
  }

  /** The buffer when the loop has answered n requests. */
  function BufferBefore(until: Lifetimes, requests: seq<Reception>, buffer: seq<Byte>, n: nat): (b: seq<Byte>)
    requires n <= |requests| && |buffer| == PATH_MAX
    requires forall i :: 0 <= i < |requests| ==> requests[i].Request?
    ensures |b| == PATH_MAX
  {
    if n == 0 then buffer
    else
      var q := requests[0];
      BufferBefore(until, requests[1..], BufferAfter(until, q.id, q.reading, buffer), n - 1)
  }

  /** These requests got these replies: one each, in order, honest and with its own id, until one leaves "/bye" in the
      path buffer; the replies stop early exactly after that one. */
  ghost predicate AllAnswered(until: Lifetimes, requests: seq<Reception>, replies: seq<Reply>, buffer: seq<Byte>) {
    && |buffer| == PATH_MAX && |replies| <= |requests|
    && (forall i :: 0 <= i < |requests| ==> requests[i].Request? && Timely(requests[i].reading))
    && (forall i :: 0 <= i < |replies| ==> Honest(until, requests[i], replies[i]))
    && (forall i :: 0 < i < |replies| ==> !(BYE <= BufferBefore(until, requests, buffer, i)))
    && (|replies| < |requests| ==> |replies| > 0 && BYE <= BufferBefore(until, requests, buffer, |replies|))
  }

  lemma OneMoreBuffer(until: Lifetimes, q: Reception, requests: seq<Reception>, buffer: seq<Byte>, i: nat)
    requires q.Request? && |buffer| == PATH_MAX && Timely(q.reading) && 0 < i <= |requests| + 1
    requires forall k :: 0 <= k < |requests| ==> requests[k].Request?
    ensures |BufferAfter(until, q.id, q.reading, buffer)| == PATH_MAX
    ensures BufferBefore(until, [q] + requests, buffer, i)
            == BufferBefore(until, requests, BufferAfter(until, q.id, q.reading, buffer), i - 1)
  {
    assert ([q] + requests)[1..] == requests && ([q] + requests)[0] == q;
  }

  lemma BufferAtStart(until: Lifetimes, requests: seq<Reception>, buffer: seq<Byte>)
    requires |buffer| == PATH_MAX && forall k :: 0 <= k < |requests| ==> requests[k].Request?
    ensures BufferBefore(until, requests, buffer, 0) == buffer
  {
  }

  lemma AnswersOneMore(until: Lifetimes, q: Reception, reply: Reply, requests: seq<Reception>, replies: seq<Reply>,
                       buffer: seq<Byte>)
    requires q.Request? && Timely(q.reading) && Honest(until, q, reply) && |buffer| == PATH_MAX
    requires AllAnswered(until, requests, replies, BufferAfter(until, q.id, q.reading, buffer))
    ensures var buffer' := BufferAfter(until, q.id, q.reading, buffer);
            AllAnswered(until, [q] + requests, if BYE <= buffer' then [reply] else [reply] + replies, buffer)
  {
    var buffer' := BufferAfter(until, q.id, q.reading, buffer);
    var requests' := [q] + requests;
    var replies' := if BYE <= buffer' then [reply] else [reply] + replies;
    assert |buffer'| == PATH_MAX;
    BufferAtStart(until, requests, buffer');
    hide Honest, Timely, BufferAfter, BufferBefore;
    forall i | 0 <= i < |requests'| ensures requests'[i].Request? && Timely(requests'[i].reading) {
      assert requests'[i] == if i == 0 then q else requests[i - 1];
    }
    forall i | 0 <= i < |replies'| ensures Honest(until, requests'[i], replies'[i]) {
      assert i > 0 ==> replies'[i] == replies[i - 1] && requests'[i] == requests[i - 1];
    }
    forall i | 0 < i <= |replies'|
      ensures BYE <= BufferBefore(until, requests', buffer, i) <==> BYE <= BufferBefore(until, requests, buffer', i - 1)
    {
      OneMoreBuffer(until, q, requests, buffer, i);
    }
    forall i | 0 < i < |replies'| ensures !(BYE <= BufferBefore(until, requests', buffer, i)) {
    }
    if |replies'| < |requests'| {
      assert BYE <= BufferBefore(until, requests, buffer', |replies'| - 1);
    }
  }

  /** Every mkdir request gets one honest reply attempt, in order, until one leaves "/bye" in the path buffer. */
  lemma {:induction false} EveryRequestAnswered(until: Lifetimes, script: seq<Reception>, buffer: seq<Byte>)
    requires AllTimely(script) && |buffer| == PATH_MAX
    ensures AllAnswered(until, Expected(script), Replies(until, script, buffer), buffer)
    decreases |script|
  {
    if script != [] && !script[0].Failed? {
      assert forall i :: 0 <= i < |script[1..]| ==> script[1..][i] == script[i + 1];
      if script[0].Interrupted? {
        hide AllAnswered;
        EveryRequestAnswered(until, script[1..], buffer);
      } else if script[0].nr == SYS_MKDIR {
        var q := script[0];
        var buffer' := BufferAfter(until, q.id, q.reading, buffer);
        OkIsTerminated(until, q.id, q.reading, buffer);
        AnswerIsHonest(until, q, buffer);
        hide AllAnswered, Honest, Answer, PathOk;
        EveryRequestAnswered(until, script[1..], buffer');
        AnswersOneMore(until, q, Answer(q, PathOk(until, q.id, q.reading), buffer'), Expected(script[1..]),
                       Replies(until, script[1..], buffer'), buffer);
      }
    }
  }

  /** A rejected request can end the loop too: if the bytes refused by the second check spell "/bye", the request gets
      its EINVAL and no later one is answered, whatever follows. */
  lemma RejectedBye(until: Lifetimes, q: Reception, rest: seq<Reception>, buffer: seq<Byte>)
    requires q.Request? && q.nr == SYS_MKDIR && |buffer| == PATH_MAX && AllTimely([q] + rest)
    requires q.reading.Opened? && ValidAt(until, q.id, q.reading.check1) && !ValidAt(until, q.id, q.reading.check2)
    requires BYE <= q.reading.bytes
    ensures Replies(until, [q] + rest, buffer) == [Reply(q.id, -EINVAL, 0, 0)]
  {
    var buffer' := BufferAfter(until, q.id, q.reading, buffer);
    assert ([q] + rest)[0] == q;
    assert buffer'[..|BYE|] == q.reading.bytes[..|BYE|] == BYE;
  }
}
