/** downloadChunk: three rounds over the CDN hosts, rotated per attempt, until one reply verifies. */
module Cdn {
  import opened Text
  import opened Depot
  import opened Octets
  import opened Modular

  const MAX_ATTEMPTS: nat := 3

  /** What one try against one host amounts to: request, status, body, decryption or decompression
      failed (Rejected); the context was cancelled around it; or a decompressed payload came back,
      and writing it at the chunk's offset would succeed or not. */
  datatype Reply = Rejected | Cancelled | Payload(data: Bytes, writeOk: bool)

  datatype Outcome = Wrote(data: Bytes) | Exhausted | Stopped | WriteFailed | Panicked

  function HexValue(s: string): Option<nat>
  {
    if s == [] then Some(0) else
      var hi := HexValue(s[..|s| - 1]);
      var lo := DigitValue(s[|s| - 1]);
      if hi.Some? && lo.Some? then Some(16 * hi.value + lo.value) else None
  }

  function StartIndex(id: string, n: nat): nat
  {
    if n > 1 && |id| >= 4 && HexValue(ToLower(id)[..4]).Some?
    then HexValue(ToLower(id)[..4]).value % n else 0
  }

  function HostsOrDefault(hosts: seq<string>): (r: seq<string>)
    ensures r != []
  {
    if hosts != [] then hosts
    else ["cache10-fra1.steamcontent.com", "cache4-fra1.steamcontent.com", "cache1-fra1.steamcontent.com"]
  }

  /** The host tried at position i of retry round `attempt`. */
  function HostAt(start: nat, n: nat, attempt: nat, i: nat): (host: nat)
    requires n > 0
    ensures host < n
  {
    (start + attempt + i) % n
  }

  /** The hosts tried in all rounds before `attempt` and in its first i positions. */
  function Schedule(start: nat, n: nat, attempt: nat, i: nat): (s: seq<nat>)
    requires n > 0 && i <= n
    ensures |s| == attempt * n + i
    decreases attempt, i
  {
    if i > 0 then Schedule(start, n, attempt, i - 1) + [HostAt(start, n, attempt, i - 1)]
    else if attempt > 0 then Schedule(start, n, attempt - 1, n)
    else []
  }

  /** The reply makes the loop move on to the next host. */
  predicate MovesOn(h: Host, c: Chunk, r: Reply)
  {
    r.Rejected? || (r.Payload? && |c.id| == 40 && !EqualFold(h.sha1(r.data), c.id))
  }

  /** A reply without the chunk's bytes: none at all, or a payload that the 40-character id of the chunk does not belong to. */
  predicate Useless(h: Host, c: Chunk, r: Reply)
  {
    match r
    case Rejected => true
    case Cancelled => false
    case Payload(data, _) => |c.id| == 40 && !EqualFold(h.sha1(data), c.id)
  }

  function Settle(r: Reply): Outcome
  {
    match r
    case Payload(data, true) => Wrote(data)
    case Payload(_, false) => WriteFailed
    case _ => Stopped
  }

  /** The first `tries` replies all make the loop move on. */
  ghost predicate AllMoveOn(h: Host, c: Chunk, reply: nat -> Reply, tries: nat)
  {
    forall k :: 0 <= k < tries ==> MovesOn(h, c, reply(k))
  }

  /** The outcome is that of the first try that does not move on, if there is one below the limit. */
  ghost predicate Decides(h: Host, c: Chunk, reply: nat -> Reply, n: nat, tries: nat, out: Outcome)
  {
    if AllMoveOn(h, c, reply, tries) then
      (out == Exhausted && tries == MAX_ATTEMPTS * n) || (out == Panicked && c.id == "" && tries == n)
    else
      && tries <= MAX_ATTEMPTS * n && AllMoveOn(h, c, reply, tries - 1)
      && out == Settle(reply(tries - 1))
  }

  method DownloadChunk(h: Host, hosts: seq<string>, c: Chunk, reply: nat -> Reply)
    returns (out: Outcome, visited: seq<nat>, round: nat, pos: nat)
    ensures var n := |HostsOrDefault(hosts)|;
      && round <= MAX_ATTEMPTS && pos <= n
      && visited == Schedule(StartIndex(c.id, n), n, round, pos)
      && Decides(h, c, reply, n, |visited|, out)
    ensures out.Wrote? && |c.id| == 40 ==> EqualFold(h.sha1(out.data), c.id)
    ensures out.Wrote? ==> visited != [] && reply(|visited| - 1) == Payload(out.data, true)
    ensures out.WriteFailed? ==> visited != [] && reply(|visited| - 1).Payload? && !reply(|visited| - 1).writeOk
    ensures out.Stopped? ==> visited != [] && reply(|visited| - 1) == Cancelled
    ensures forall k :: 0 <= k < |visited| && (k < |visited| - 1 || out.Exhausted? || out.Panicked?) ==> Useless(h, c, reply(k))
  {
    var n := |HostsOrDefault(hosts)|;
    var start := StartIndex(c.id, n);
    visited, round, pos := [], 0, 0;
    for attempt := 0 to MAX_ATTEMPTS
      invariant visited == Schedule(start, n, attempt, 0)
      invariant AllMoveOn(h, c, reply, |visited|)
      invariant attempt > 1 ==> c.id != ""
    {
      if attempt > 0 && c.id == "" {
        return Panicked, visited, attempt, 0;
      }
      for i := 0 to n
        invariant visited == Schedule(start, n, attempt, i)
        invariant AllMoveOn(h, c, reply, |visited|)
      {
        var r := reply(|visited|);
        visited := visited + [HostAt(start, n, attempt, i)];
        if !MovesOn(h, c, r) {
          FirstDecides(h, c, reply, n, attempt, i);
          return Settle(r), visited, attempt, i + 1;
        }
      }
    }
    out, round := Exhausted, MAX_ATTEMPTS;
  }

  lemma {:induction false} FirstDecides(h: Host, c: Chunk, reply: nat -> Reply, n: nat, attempt: nat, i: nat)
    requires attempt < MAX_ATTEMPTS && i < n
    requires AllMoveOn(h, c, reply, attempt * n + i)
    requires !MovesOn(h, c, reply(attempt * n + i))
    ensures Decides(h, c, reply, n, attempt * n + i + 1, Settle(reply(attempt * n + i)))
  {
    assert attempt * n + n <= MAX_ATTEMPTS * n;
  }

  /** Every retry round visits every host, and no host twice. */
  lemma RoundVisitsEveryHostOnce(start: nat, n: nat, attempt: nat, host: nat) returns (i: nat)
    requires host < n
    ensures i < n && HostAt(start, n, attempt, i) == host
    ensures forall j :: 0 <= j < n && HostAt(start, n, attempt, j) == host ==> j == i
  {
    var r := (start + attempt) % n;
    forall j | 0 <= j < n
      ensures HostAt(start, n, attempt, j) == if r + j < n then r + j else r + j - n
    {
      ModAdd(start + attempt, n, j);
    }
    i := if host >= r then host - r else host - r + n;
  }

  /** The first try goes to the start host, and each round starts one host further than the one before. */
  lemma RoundsRotate(start: nat, n: nat, attempt: nat, i: nat)
    requires start < n
    ensures HostAt(start, n, 0, 0) == start
    ensures HostAt(start, n, attempt + 1, i) == HostAt(start, n, attempt, i + 1)
  {
    assert start + (attempt + 1) + i == start + attempt + (i + 1);
  }

  lemma {:induction false} HexDigitValue(n: nat)
    requires n < 16
    ensures DigitValue(HexDigit(n)) == Some(n) && LowerChar(HexDigit(n)) == HexDigit(n)
  {
  }

  function FourDigits(v: nat): string
    requires v < 0x1_0000
  {
    [HexDigit(v / 0x1000), HexDigit(v / 0x100 % 16), HexDigit(v / 16 % 16), HexDigit(v % 16)]
  }

  lemma {:induction false} FourDigitsRead(v: nat)
    requires v < 0x1_0000
    ensures HexValue(FourDigits(v)) == Some(v)
  {
    var s := FourDigits(v);
    HexDigitValue(v / 0x1000);
    HexDigitValue(v / 0x100 % 16);
    HexDigitValue(v / 16 % 16);
    HexDigitValue(v % 16);
    var a, b, c := v / 0x1000, v / 0x100, v / 16;
    assert b / 16 == a && c / 16 == b;
    assert s[..0] == [] && s[..1][..0] == s[..0] && s[..2][..1] == s[..1] && s[..3][..2] == s[..2];
    assert HexValue(s[..1]) == Some(a);
    assert HexValue(s[..2]) == Some(b);
    assert HexValue(s[..3]) == Some(c);
    assert s[..4] == s;
  }

  /** The start host is the number written in the first four hexadecimal digits of the id, modulo the number of hosts, so
      chunks spread over all of them. */
  lemma {:induction false} StartOfId(v: nat, rest: string, n: nat)
    requires v < 0x1_0000 && n > 1
    ensures StartIndex(FourDigits(v) + rest, n) == v % n
    ensures v < n ==> StartIndex(FourDigits(v) + rest, n) == v
  {
    var id := FourDigits(v) + rest;
    HexDigitValue(v / 0x1000);
    HexDigitValue(v / 0x100 % 16);
    HexDigitValue(v / 16 % 16);
    HexDigitValue(v % 16);
    assert ToLower(id)[..4] == FourDigits(v);
    FourDigitsRead(v);
    if v < n {
      DivModIs(v, n, 0, v);
    }
  }

  /** The host came up among the first i of a round. */
  predicate CameUp(start: nat, n: nat, attempt: nat, i: nat, host: nat)
    requires i <= n
  {
    exists j :: 0 <= j < i && HostAt(start, n, attempt, j) == host
  }

  /** After all rounds before `attempt` and i positions of it, a host has one visit per round it came up in. */
  lemma {:induction false} HostVisits(start: nat, n: nat, attempt: nat, i: nat, host: nat)
    requires host < n && i <= n
    ensures multiset(Schedule(start, n, attempt, i))[host] == attempt + if CameUp(start, n, attempt, i, host) then 1 else 0
    decreases attempt, i
  {
    if i > 0 {
      HostVisits(start, n, attempt, i - 1, host);
      VisitMore(start, n, attempt, i - 1, host);
    } else if attempt > 0 {
      HostVisits(start, n, attempt - 1, n, host);
      CameUpByTheEnd(start, n, attempt - 1, host);
    }
  }

  lemma {:induction false} VisitMore(start: nat, n: nat, attempt: nat, i: nat, host: nat)
    requires host < n && i < n
    requires multiset(Schedule(start, n, attempt, i))[host] == attempt + if CameUp(start, n, attempt, i, host) then 1 else 0
    ensures multiset(Schedule(start, n, attempt, i + 1))[host] == attempt + if CameUp(start, n, attempt, i + 1, host) then 1 else 0
  {
    ComesUpOnce(start, n, attempt, i, host);
    OneMoreVisit(Schedule(start, n, attempt, i), HostAt(start, n, attempt, i), host);
    assert Schedule(start, n, attempt, i + 1) == Schedule(start, n, attempt, i) + [HostAt(start, n, attempt, i)];
  }

  lemma CameUpByTheEnd(start: nat, n: nat, attempt: nat, host: nat)
    requires host < n
    ensures CameUp(start, n, attempt, n, host)
  {
    var pos := RoundVisitsEveryHostOnce(start, n, attempt, host);
  }

  lemma OneMoreVisit(visits: seq<nat>, next: nat, host: nat)
    ensures multiset(visits + [next])[host] == multiset(visits)[host] + if next == host then 1 else 0
  {
  }

  lemma ComesUpOnce(start: nat, n: nat, attempt: nat, i: nat, host: nat)
    requires host < n && i < n
    ensures HostAt(start, n, attempt, i) == host ==> !CameUp(start, n, attempt, i, host)
    ensures CameUp(start, n, attempt, i + 1, host) <==> CameUp(start, n, attempt, i, host) || HostAt(start, n, attempt, i) == host
  {
    var pos := RoundVisitsEveryHostOnce(start, n, attempt, host);
  }

  /** A download that gives up without cancellation or write error has tried every host exactly three times. */
  lemma {:induction false} GivingUpTriedEveryHost(h: Host, hosts: seq<string>, c: Chunk, reply: nat -> Reply,
                               out: Outcome, visited: seq<nat>, round: nat, pos: nat, host: nat)
    requires var n := |HostsOrDefault(hosts)|;
      && host < n && round <= MAX_ATTEMPTS && pos <= n
      && visited == Schedule(StartIndex(c.id, n), n, round, pos)
      && Decides(h, c, reply, n, |visited|, out)
    requires c.id != "" && !out.Wrote? && !out.WriteFailed? && !out.Stopped?
    ensures |visited| == MAX_ATTEMPTS * |HostsOrDefault(hosts)| && multiset(visited)[host] == MAX_ATTEMPTS
  {
    var n := |HostsOrDefault(hosts)|;
    var start := StartIndex(c.id, n);
    LastRound(n, round, pos);
    assert visited == Schedule(start, n, MAX_ATTEMPTS, 0);
    HostVisits(start, n, MAX_ATTEMPTS, 0, host);
  }

  lemma {:induction false} LastRound(n: nat, round: nat, pos: nat)
    requires n > 0 && round <= MAX_ATTEMPTS && pos <= n && round * n + pos == MAX_ATTEMPTS * n
    ensures (round == MAX_ATTEMPTS && pos == 0) || (round == MAX_ATTEMPTS - 1 && pos == n)
  {
    assert (round == 3 ==> round * n == 3 * n) && (round == 2 ==> round * n == 2 * n) && (round == 1 ==> round * n == n)
           && (round == 0 ==> round * n == 0);
  }
}
