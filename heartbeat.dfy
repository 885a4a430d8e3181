/**
 * The two-node failover daemon of heartbeat.py.
 *
 * Each node holds a role (`U` unknown, `P` primary, `S` secondary, `N`
 * standalone: primary because the peer went silent), a counter of pings
 * sent since the last pong, and whether the watched process is alive.  Each
 * one-byte UDP datagram from the peer is answered by a fixed rule; a ping
 * thread counts unanswered pings and goes standalone after six; a
 * process check demotes the node when the watched process is gone; and
 * two files force the role.
 *
 * The clock, the sleeps, the lock around the shared globals, the state file
 * and the `ps` call are not modelled: the lines `ps` prints and the outcome
 * of each file removal and each UDP send are parameters.  A datagram the
 * peer actually received is appended to `sent`.
 */
module Heartbeat {
  import opened Common
  import opened PyText

  /** The node's role, as written to the state file. */
  datatype Role = Unknown | Primary | Secondary | Standalone

  function RoleLetter(r: Role): char
  {
    match r
    case Unknown => 'U'
    case Primary => 'P'
    case Secondary => 'S'
    case Standalone => 'N'
  }

  /** Unanswered pings after which the peer is taken to be gone (30 seconds at one ping per 5). */
  const MISSED_LIMIT: int := 6

  // ---------------------------------------------------------------------------
  // The reaction to one datagram
  // ---------------------------------------------------------------------------

  /** What one datagram does: the new role and counter, the reply the peer receives, and whether the daemon dies. */
  datatype Reaction = Reaction(role: Role, count: int, reply: Option<char>, halts: bool)

  /** The reply to a state query `G`, chosen from the role held before the query. */
  function QueryReply(now: Role): char
  {
    if now == Primary then 'S' else 'P'
  }

  /**
   * One received datagram.  `recvfrom(1)` delivers one byte; a byte that is
   * not UTF-8 fails to decode and is skipped, and so is any letter without a
   * rule.  Sending the pong is guarded by `try`; the replies to `N` and `G`
   * are not, so a failed send there ends the daemon.
   */
  function React(now: Role, count: int, data: byte, sendOk: bool): Reaction
  {
    var sent := (c: char) => if sendOk then Some(c) else None;
    if data == 'B' as int then Reaction(now, 0, None, false)
    else if data == 'A' as int then Reaction(now, count, sent('B'), false)
    else if data == 'P' as int then Reaction(Primary, count, None, false)
    else if data == 'S' as int then Reaction(Secondary, count, None, false)
    else if data == 'N' as int then Reaction(Secondary, count, sent('P'), !sendOk)
    else if data == 'G' as int then
      Reaction(if now == Standalone then Primary else now, count, sent(QueryReply(now)), !sendOk)
    else Reaction(now, count, None, false)
  }

  /** A pong clears the counter; a ping is answered with a pong; neither changes the role. */
  lemma PingPongKeepsRole(now: Role, count: int, sendOk: bool)
    ensures React(now, count, 'B' as int, sendOk) == Reaction(now, 0, None, false)
    ensures var r := React(now, count, 'A' as int, sendOk);
      r.role == now && r.count == count && !r.halts && (r.reply == Some('B') <==> sendOk) && (r.reply == None <==> !sendOk)
  {
  }

  /** `P` and `S` set the role whatever it was; `N` makes the node secondary and tells the peer to be primary. */
  lemma ToldRoles(now: Role, count: int, sendOk: bool)
    ensures React(now, count, 'P' as int, sendOk).role == Primary
    ensures React(now, count, 'S' as int, sendOk).role == Secondary
    ensures var r := React(now, count, 'N' as int, sendOk);
      r.role == Secondary && r.reply == (if sendOk then Some('P') else None)
  {
  }

  /** A query ends standalone mode and leaves any other role; the reply is `S` exactly when the node was primary. */
  lemma QueryRule(now: Role, count: int)
    ensures var r := React(now, count, 'G' as int, true);
      && r.role == (if now == Standalone then Primary else now)
      && r.count == count
      && r.reply.Some?
      && (r.reply.value == 'S' <==> now == Primary)
      && (r.reply.value == 'P' <==> now != Primary)
  {
  }

  /** Letters without a rule (and bytes that do not decode) change nothing and draw no reply. */
  lemma OtherBytesIgnored(now: Role, count: int, data: byte, sendOk: bool)
    requires data !in {'A' as int, 'B' as int, 'G' as int, 'N' as int, 'P' as int, 'S' as int}
    ensures React(now, count, data, sendOk) == Reaction(now, count, None, false)
  {
  }

  // ---------------------------------------------------------------------------
  // The state query between two nodes
  // ---------------------------------------------------------------------------

  /** The roles of requester and responder after a `G` from the requester and the responder's answer. */
  function Exchange(requester: Role, responder: Role, reply: Role -> char): (Role, Role)
  {
    var after := if responder == Standalone then Primary else responder;
    var letter := reply(responder);
    var mine := if letter == 'P' then Primary else if letter == 'S' then Secondary else requester;
    (mine, after)
  }

  /**
   * As written, a standalone node that is queried becomes primary and tells
   * the requester to become primary as well: both nodes end primary.
   */
  lemma QueryOfStandaloneGivesTwoPrimaries(requester: Role, count: int)
    ensures React(Standalone, count, 'G' as int, true).role == Primary
    ensures React(Standalone, count, 'G' as int, true).reply == Some('P')
    ensures React(requester, count, 'P' as int, true).role == Primary
    ensures Exchange(requester, Standalone, QueryReply) == (Primary, Primary)
  {
  }

  /** The evident intent: answer from the role the responder holds after the query. */
  function QueryReplyAfter(now: Role): char
  {
    QueryReply(if now == Standalone then Primary else now)
  }

  /** Answering from the new role, a query never leaves both nodes primary, and a primary responder demotes the requester. */
  lemma QueryAfterKeepsOnePrimary(requester: Role, responder: Role)
    ensures var (mine, theirs) := Exchange(requester, responder, QueryReplyAfter);
      && !(mine == Primary && theirs == Primary)
      && (theirs == Primary ==> mine == Secondary)
      && (theirs != Primary ==> mine == Primary)
  {
  }

  // ---------------------------------------------------------------------------
  // The ping counter
  // ---------------------------------------------------------------------------

  /** The part of the state the ping thread changes. */
  datatype Pinger = Pinger(count: int, role: Role)

  /** One ping: a delivered ping counts; at six the counter resets and the node goes standalone. */
  function Tick(p: Pinger, ok: bool): Pinger
  {
    var c := if ok then p.count + 1 else p.count;
    if c >= MISSED_LIMIT then Pinger(0, Standalone) else Pinger(c, p.role)
  }

  function Ticks(p: Pinger, oks: seq<bool>): Pinger
  {
    if oks == [] then p else Tick(Ticks(p, oks[..|oks| - 1]), oks[|oks| - 1])
  }

  function Trues(oks: seq<bool>): nat
  {
    if oks == [] then 0 else Trues(oks[..|oks| - 1]) + (if oks[|oks| - 1] then 1 else 0)
  }

  /**
   * Without pongs, the counter is the number of delivered pings modulo six,
   * and the node is standalone exactly when six or more have been counted.
   */
  lemma {:induction false} TicksCount(p: Pinger, oks: seq<bool>)
    requires 0 <= p.count < MISSED_LIMIT
    ensures var t := p.count + Trues(oks);
      Ticks(p, oks) == Pinger(t % MISSED_LIMIT, if t >= MISSED_LIMIT then Standalone else p.role)
  {
    if oks != [] {
      TicksCount(p, oks[..|oks| - 1]);
    }
  }

  // ---------------------------------------------------------------------------
  // Counting the watched process
  // ---------------------------------------------------------------------------

  /**
   * The first word of a `ps` line, or None for a blank line (where
   * `split()[0]` raises).  `split()` already ignores surrounding blanks, so
   * the `strip()` before it changes nothing and is left out.
   */
  function FirstWord(line: string): Option<string>
  {
    var w := Split(line);
    if w == [] then None else Some(w[0])
  }

  function Matches(line: string, name: string): nat
    requires FirstWord(line).Some?
  {
    if FirstWord(line).value == name then 1 else 0
  }

  /** The loop of `checkForServer`: None once a blank line raises, else the number of matching lines. */
  function ProcessCount(lines: seq<string>, name: string): Option<nat>
  {
    if lines == [] then Some(0)
    else
      var last := lines[|lines| - 1];
      match ProcessCount(lines[..|lines| - 1], name)
      case None => None
      case Some(n) => if FirstWord(last).None? then None else Some(n + Matches(last, name))
  }

  /** The same count taken from the front of the listing. */
  function MatchCount(lines: seq<string>, name: string): nat
    requires forall i :: 0 <= i < |lines| ==> FirstWord(lines[i]).Some?
  {
    if lines == [] then 0 else Matches(lines[0], name) + MatchCount(lines[1..], name)
  }

  lemma {:induction false} MatchCountAppend(lines: seq<string>, line: string, name: string)
    requires forall i :: 0 <= i < |lines| ==> FirstWord(lines[i]).Some?
    requires FirstWord(line).Some?
    ensures MatchCount(lines + [line], name) == MatchCount(lines, name) + Matches(line, name)
  {
    if lines != [] {
      assert (lines + [line])[1..] == lines[1..] + [line];
      MatchCountAppend(lines[1..], line, name);
    }
  }

  /**
   * The loop raises exactly when some line is blank; otherwise it counts the
   * lines whose first word is the process name.
   */
  lemma {:induction false} ProcessCountMeaning(lines: seq<string>, name: string)
    ensures ProcessCount(lines, name).Some? <==> forall i :: 0 <= i < |lines| ==> FirstWord(lines[i]).Some?
    ensures ProcessCount(lines, name).Some? ==> ProcessCount(lines, name).value == MatchCount(lines, name)
  {
    if lines != [] {
      var init := lines[..|lines| - 1];
      var last := lines[|lines| - 1];
      ProcessCountMeaning(init, name);
      assert lines == init + [last];
      if ProcessCount(lines, name).Some? {
        MatchCountAppend(init, last, name);
      } else if ProcessCount(init, name).None? {
        var i :| 0 <= i < |init| && FirstWord(init[i]).None?;
        assert lines[i] == init[i];
      }
    }
  }

  // ---------------------------------------------------------------------------
  // The node
  // ---------------------------------------------------------------------------

  class Node {
    var role: Role
    /** Pings delivered since the last pong. */
    var count: int
    /** Whether the watched process was last seen running. */
    var palive: bool
    /** Datagrams the peer received, in order. */
    var sent: seq<char>
    /** False once an unguarded send has raised out of the main loop. */
    var running: bool
    /** The force-primary and force-secondary files. */
    var primaryFile: bool
    var secondaryFile: bool

    /** The counter never leaves 0..5 between steps. */
    predicate CountInRange()
      reads this
    {
      0 <= count < MISSED_LIMIT
    }

    /** The module's initial globals: role `U`, counter 0, process taken to be alive. */
    constructor (primary: bool, secondary: bool)
      ensures role == Unknown && count == 0 && palive && sent == [] && running
      ensures primaryFile == primary && secondaryFile == secondary
      ensures CountInRange()
    {
      role, count, palive, sent, running := Unknown, 0, true, [], true;
      primaryFile, secondaryFile := primary, secondary;
    }

    /**
     * The start of `heartbeat()`: the role is reset to `U` and the peer is
     * queried; a failed query makes the node standalone.
     */
    method Start(sendOk: bool)
      modifies this`role, this`sent
      ensures role == (if sendOk then Unknown else Standalone)
      ensures sent == old(sent) + (if sendOk then ['G'] else [])
    {
      role := Unknown;
      if sendOk {
        sent := sent + ['G'];
      } else {
        role := Standalone;
      }
    }

    /** One datagram from the peer. */
    method Receive(data: byte, sendOk: bool)
      requires running
      modifies this`role, this`count, this`sent, this`running
      ensures var r := React(old(role), old(count), data, sendOk);
        && role == r.role && count == r.count && running == !r.halts
        && sent == old(sent) + (if r.reply.Some? then [r.reply.value] else [])
      ensures old(CountInRange()) ==> CountInRange()
    {
      var now := role;
      if data == 'B' as int {
        count := 0;
        return;
      }
      if data == 'A' as int {
        if sendOk {
          sent := sent + ['B'];
        }
        return;
      }
      if data == 'P' as int {
        if now != Primary {
          role := Primary;
        }
      } else if data == 'S' as int {
        if now != Secondary {
          role := Secondary;
        }
      } else if data == 'N' as int {
        if now != Secondary {
          role := Secondary;
        }
        if sendOk {
          sent := sent + ['P'];
        } else {
          running := false;
        }
      } else if data == 'G' as int {
        if now == Standalone {
          role := Primary;
        }
        if sendOk {
          sent := sent + [if now == Primary then 'S' else 'P'];
        } else {
          running := false;
        }
      }
    }

    /**
     * The force-primary file: it is removed, the node becomes primary and
     * tells the peer to be secondary.  A failed removal leaves everything
     * (the file included) as it was.
     */
    method ForcePrimary(removeOk: bool, sendOk: bool)
      requires primaryFile
      modifies this`role, this`sent, this`primaryFile
      ensures primaryFile == !removeOk
      ensures role == (if removeOk then Primary else old(role))
      ensures sent == old(sent) + (if removeOk && sendOk then ['S'] else [])
    {
      if removeOk {
        primaryFile := false;
        role := Primary;
        if sendOk {
          sent := sent + ['S'];
        }
      }
    }

    /** The force-secondary file: the node becomes secondary and tells the peer to be primary. */
    method ForceSecondary(removeOk: bool, sendOk: bool)
      requires secondaryFile
      modifies this`role, this`sent, this`secondaryFile
      ensures secondaryFile == !removeOk
      ensures role == (if removeOk then Secondary else old(role))
      ensures sent == old(sent) + (if removeOk && sendOk then ['P'] else [])
    {
      if removeOk {
        secondaryFile := false;
        role := Secondary;
        if sendOk {
          sent := sent + ['P'];
        }
      }
    }

    /**
     * One pass of the main loop: the force-primary file wins over the
     * force-secondary file, and either wins over the socket; a receive that
     * times out or fails (`datagram == None`) changes nothing.
     */
    method Pass(removeOk: bool, datagram: Option<byte>, sendOk: bool)
      requires running
      modifies this`role, this`count, this`sent, this`running, this`primaryFile, this`secondaryFile
      ensures old(primaryFile) ==>
        (primaryFile == !removeOk && secondaryFile == old(secondaryFile) && count == old(count) && running
         && role == (if removeOk then Primary else old(role))
         && sent == old(sent) + (if removeOk && sendOk then ['S'] else []))
      ensures !old(primaryFile) && old(secondaryFile) ==>
        (!primaryFile && secondaryFile == !removeOk && count == old(count) && running
         && role == (if removeOk then Secondary else old(role))
         && sent == old(sent) + (if removeOk && sendOk then ['P'] else []))
      ensures !old(primaryFile) && !old(secondaryFile) ==>
        (!primaryFile && !secondaryFile
         && (datagram.None? ==> role == old(role) && count == old(count) && sent == old(sent) && running)
         && (datagram.Some? ==>
           var r := React(old(role), old(count), datagram.value, sendOk);
           role == r.role && count == r.count && running == !r.halts
           && sent == old(sent) + (if r.reply.Some? then [r.reply.value] else [])))
      ensures old(CountInRange()) ==> CountInRange()
    {
      if primaryFile {
        ForcePrimary(removeOk, sendOk);
      } else if secondaryFile {
        ForceSecondary(removeOk, sendOk);
      } else if datagram.Some? {
        Receive(datagram.value, sendOk);
      }
    }

    /** The once-a-minute state query of the ping thread. */
    method RequestState(sendOk: bool)
      modifies this`sent
      ensures sent == old(sent) + (if sendOk then ['G'] else [])
    {
      if sendOk {
        sent := sent + ['G'];
      }
    }

    /** One ping of `pingPong`: send `A`, count it if it went out, go standalone at six. */
    method PingTick(sendOk: bool)
      modifies this`count, this`role, this`sent
      ensures Pinger(count, role) == Tick(Pinger(old(count), old(role)), sendOk)
      ensures sent == old(sent) + (if sendOk then ['A'] else [])
      ensures old(CountInRange()) ==> CountInRange()
    {
      if sendOk {
        sent := sent + ['A'];
        count := count + 1;
      }
      if count >= MISSED_LIMIT {
        count := 0;
        if role != Standalone {
          role := Standalone;
        }
      }
    }

    /**
     * `checkForServer`: `procs` is what `ps` printed (None when it could not
     * be run).  When the listing cannot be read, has a blank line, or shows
     * no matching process, the node becomes secondary, notes the process as
     * dead and tells the peer to be primary; the result is True only for the
     * no-process case with a delivered notice.  Otherwise the process is
     * alive and the result is True.
     */
    method CheckForServer(name: string, procs: Option<seq<string>>, sendOk: bool) returns (ok: bool)
      modifies this`role, this`palive, this`sent
      ensures var c := if procs.None? then None else ProcessCount(procs.value, name);
        if c == None || c == Some(0) then
          role == Secondary && !palive && sent == old(sent) + (if sendOk then ['P'] else [])
          && ok == (c.Some? && sendOk)
        else
          role == old(role) && palive && sent == old(sent) && ok
    {
      var counted: Option<nat> := None;
      if procs.Some? {
        counted := CountProcesses(procs.value, name);
      }
      if counted == None || counted == Some(0) {
        role, palive := Secondary, false;
        if sendOk {
          sent := sent + ['P'];
        }
        ok := counted.Some? && sendOk;
      } else {
        palive := true;
        ok := true;
      }
    }
  }

  /** The counting loop of `checkForServer`: None when a blank line raises. */
  method CountProcesses(lines: seq<string>, name: string) returns (counted: Option<nat>)
    ensures counted == ProcessCount(lines, name)
  {
    var srvcnt: nat := 0;
    var i := 0;
    while i < |lines|
      invariant 0 <= i <= |lines|
      invariant ProcessCount(lines[..i], name) == Some(srvcnt)
    {
      assert lines[..i + 1][..i] == lines[..i];
      var word := FirstWord(lines[i]);
      if word.None? {
        assert lines[..i + 1][i] == lines[i];
        ProcessCountNone(lines, i + 1, name);
        return None;
      }
      if word.value == name {
        srvcnt := srvcnt + 1;
      }
      i := i + 1;
    }
    assert lines[..i] == lines;
    counted := Some(srvcnt);
  }

  /** Once a prefix of the listing raises, the whole loop does. */
  lemma {:induction false} ProcessCountNone(lines: seq<string>, k: nat, name: string)
    requires k <= |lines| && ProcessCount(lines[..k], name) == None
    ensures ProcessCount(lines, name) == None
    decreases |lines| - k
  {
    if k < |lines| {
      assert lines[..k + 1][..k] == lines[..k];
      ProcessCountNone(lines, k + 1, name);
    } else {
      assert lines[..k] == lines;
    }
  }
}
