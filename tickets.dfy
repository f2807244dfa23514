/**
 * The ticket cog's bookkeeping of opened tickets: the auto-close sweep
 * with its warn / wait / close decision and the `valid` list of channels
 * exempt from it, the member-left handler and the thread-deleted handler.
 * Discord lookups are sets of the keys that resolve; messages sent and
 * tickets closed are returned as notices rather than performed.
 */
module Tickets {
  import opened Wrappers
  import opened Decimal
  import opened TicketPanels

  /** A stored ticket; `openedAt` is the opening time in hours. */
  datatype Ticket = Ticket(panel: string, logmsg: int, openedAt: real, hasResponse: bool)

  /** An insertion-ordered dictionary keyed by the decimal rendering of a Discord id. */
  type Dict<V> = seq<(string, V)>

  /** `opened`: user id -> channel id -> ticket. */
  type Opened = Dict<Dict<Ticket>>

  /** The index of the first key, from `from` on, that `m` accepts. */
  function IndexWhere<V>(d: Dict<V>, m: string -> bool, from: nat): (r: Option<nat>)
    requires from <= |d|
    ensures r.Some? ==> from <= r.value < |d| && m(d[r.value].0) && forall j :: from <= j < r.value ==> !m(d[j].0)
    ensures r.None? ==> forall j :: from <= j < |d| ==> !m(d[j].0)
    decreases |d| - from
  {
    if from == |d| then None
    else if m(d[from].0) then Some(from)
    else IndexWhere(d, m, from + 1)
  }

  /** `d[key]` when present (keys of a dictionary are unique, so the first match is the entry). */
  function Lookup<V>(d: Dict<V>, key: string): (r: Option<V>)
    ensures r.Some? <==> exists i :: 0 <= i < |d| && d[i].0 == key
    ensures r.Some? ==> exists i :: 0 <= i < |d| && d[i] == (key, r.value)
  {
    match IndexWhere(d, k => k == key, 0)
    case None => None
    case Some(i) => Some(d[i].1)
  }

  /* ---------------------------------------------------------------- auto-close */

  /** What one sweep does with an unanswered ticket. */
  datatype Action = Warn | Wait | Close

  /**
   * The decision for a ticket open `td` hours against the limit
   * `inactive`: warn when the limit falls within the next 0.33 hours,
   * wait while it is further off, close once it is reached.
   */
  function Classify(td: real, inactive: int): (a: Action)
    ensures a == Close <==> inactive as real <= td
    ensures a == Warn <==> inactive as real - 0.33 <= td < inactive as real
    ensures a == Wait <==> td < inactive as real - 0.33
  {
    if td < inactive as real <= td + 0.33 then Warn
    else if td < inactive as real then Wait
    else Close
  }

  /** The sweep runs every 20 minutes. */
  const SweepInterval: real := 1.0 / 3.0

  /** A warned ticket that stays unanswered is closed by the next sweep. */
  lemma WarnedThenClosed(td: real, inactive: int)
    requires Classify(td, inactive) == Warn
    ensures Classify(td + SweepInterval, inactive) == Close
  {
  }

  /**
   * The warning window (0.33 hours) is shorter than the sweep interval (a
   * third of an hour), so a ticket whose sweeps fall on either side of
   * the window is closed without ever being warned.
   */
  lemma ClosedUnwarned(inactive: int)
    ensures Classify(inactive as real - SweepInterval, inactive) == Wait
    ensures Classify(inactive as real, inactive) == Close
  {
  }

  const CloseReasonPrefix: string := "(Auto-Close) Opened ticket with no response for "

  /** The reason passed to `close_ticket`: the limit and "hour" or "hours". */
  function CloseReason(inactive: int): string
  {
    CloseReasonPrefix + IntToString(inactive) + " " + (if inactive != 1 then "hours" else "hour")
  }

  /** The singular only for a one-hour limit. */
  lemma {:induction false} CloseReasonPlural(inactive: int)
    ensures inactive == 1 ==> CloseReason(inactive) == "(Auto-Close) Opened ticket with no response for 1 hour"
    ensures inactive != 1 ==> CloseReason(inactive)[|CloseReason(inactive)| - 6..] == " hours"
    ensures CloseReason(inactive)[..|CloseReasonPrefix|] == CloseReasonPrefix
  {
    var r := CloseReason(inactive);
    if inactive != 1 {
      assert r == (CloseReasonPrefix + IntToString(inactive)) + " hours";
    } else {
      assert IntToString(1) == "1";
    }
    assert r == CloseReasonPrefix + (IntToString(inactive) + " " + (if inactive != 1 then "hours" else "hour"));
  }

  /**
   * One guild as the sweep sees it: its limit and opened tickets, the user
   * keys `get_member` resolves, the channel keys `get_channel` resolves,
   * and the channel keys in which the ticket owner has typed.
   */
  datatype TicketGuild = TicketGuild(gid: int, inactive: int, openTickets: Opened,
                                     members: set<string>, channels: set<string>, typed: set<string>)

  /** One ticket reached by the sweep. */
  datatype Visit = Visit(uid: string, cid: string, ticket: Ticket)

  /** What the sweep asks of Discord: a warning to the owner, or closing the ticket. */
  datatype Notice = WarnOwner(gid: int, uid: string, cid: string) | CloseTicket(gid: int, uid: string, cid: string, reason: string)

  /** One member's tickets as the sweep reaches them, in dictionary order. */
  function UserVisits(uid: string, tickets: Dict<Ticket>): seq<Visit>
  {
    seq(|tickets|, j requires 0 <= j < |tickets| => Visit(uid, tickets[j].0, tickets[j].1))
  }

  /** The tickets the sweep reaches, in order: those of members still in the guild. */
  function Visits(open: Opened, members: set<string>): seq<Visit>
    decreases |open|
  {
    if open == [] then []
    else
      var init := Visits(open[..|open| - 1], members);
      var (uid, tickets) := open[|open| - 1];
      if uid in members then init + UserVisits(uid, tickets) else init
  }

  /** A member's visits are exactly that member's tickets. */
  lemma UserVisitsIff(uid: string, tickets: Dict<Ticket>, v: Visit)
    ensures v in UserVisits(uid, tickets) <==>
      v.uid == uid && exists j :: 0 <= j < |tickets| && tickets[j] == (v.cid, v.ticket)
  {
    var vs := UserVisits(uid, tickets);
    if v in vs {
      var k :| 0 <= k < |vs| && vs[k] == v;
      assert tickets[k] == (v.cid, v.ticket);
    }
    if v.uid == uid && exists j :: 0 <= j < |tickets| && tickets[j] == (v.cid, v.ticket) {
      var j :| 0 <= j < |tickets| && tickets[j] == (v.cid, v.ticket);
      assert vs[j] == v;
    }
  }

  /** The ticket at user position `i`, ticket position `j` is the one `v` stands for. */
  predicate At(open: Opened, i: int, j: int, v: Visit)
  {
    0 <= i < |open| && 0 <= j < |open[i].1| && open[i].0 == v.uid && open[i].1[j] == (v.cid, v.ticket)
  }

  /**
   * The sweep reaches a ticket exactly when its owner is still a member:
   * every visit is a stored ticket of a member, and every stored ticket of
   * a member is visited.
   */
  lemma {:induction false} VisitsIff(open: Opened, members: set<string>, v: Visit)
    ensures v in Visits(open, members) <==> v.uid in members && exists i, j :: At(open, i, j, v)
    decreases |open|
  {
    if open != [] {
      var n := |open| - 1;
      var init := open[..n];
      VisitsIff(init, members, v);
      UserVisitsIff(open[n].0, open[n].1, v);
      assert Visits(open, members) == if open[n].0 in members then Visits(init, members) + UserVisits(open[n].0, open[n].1)
        else Visits(init, members);
      if v in Visits(open, members) {
        if v in Visits(init, members) {
          var i, j :| At(init, i, j, v);
          assert At(open, i, j, v);
        } else {
          var j :| 0 <= j < |open[n].1| && open[n].1[j] == (v.cid, v.ticket);
          assert At(open, n, j, v);
        }
      }
      if v.uid in members && exists i, j :: At(open, i, j, v) {
        var i, j :| At(open, i, j, v);
        if i < n {
          assert At(init, i, j, v);
          assert v in Visits(init, members);
        } else {
          assert open[n].1[j] == (v.cid, v.ticket);
          assert v in UserVisits(open[n].0, open[n].1);
        }
      }
    }
  }

  /** The exempt channels and the notices issued so far. */
  datatype Sweep = Sweep(valid: seq<string>, notices: seq<Notice>)

  /**
   * One ticket: an answered ticket, or one whose owner has typed, becomes
   * exempt; an exempt ticket or one whose channel is gone is passed over;
   * the rest are warned, left or closed by their age.
   */
  function Step(s: Sweep, v: Visit, g: TicketGuild, now: real): Sweep
  {
    if v.ticket.hasResponse && v.cid !in s.valid then Sweep(s.valid + [v.cid], s.notices)
    else if v.cid in s.valid then s
    else if v.cid !in g.channels then s
    else if v.cid in g.typed then Sweep(s.valid + [v.cid], s.notices)
    else match Classify(now - v.ticket.openedAt, g.inactive)
      case Warn => Sweep(s.valid, s.notices + [WarnOwner(g.gid, v.uid, v.cid)])
      case Wait => s
      case Close => Sweep(s.valid, s.notices + [CloseTicket(g.gid, v.uid, v.cid, CloseReason(g.inactive))])
  }

  function SweepAll(s: Sweep, vs: seq<Visit>, g: TicketGuild, now: real): Sweep
    decreases |vs|
  {
    if vs == [] then s else Step(SweepAll(s, vs[..|vs| - 1], g, now), vs[|vs| - 1], g, now)
  }

  /** One guild: nothing when auto-close is off (`inactive` is 0) or nothing is open. */
  function GuildSweep(s: Sweep, g: TicketGuild, now: real): Sweep
  {
    if g.inactive == 0 || g.openTickets == [] then s else SweepAll(s, Visits(g.openTickets, g.members), g, now)
  }

  function SweepGuilds(s: Sweep, gs: seq<TicketGuild>, now: real): Sweep
    decreases |gs|
  {
    if gs == [] then s else GuildSweep(SweepGuilds(s, gs[..|gs| - 1], now), gs[|gs| - 1], now)
  }

  predicate Distinct(s: seq<string>)
  {
    forall i, j :: 0 <= i < j < |s| ==> s[i] != s[j]
  }

  /** The ticket `v` accounts for notice `n`: unanswered, reachable, untyped, and of the age the notice needs. */
  predicate Justifies(v: Visit, n: Notice, g: TicketGuild, now: real)
  {
    && n.gid == g.gid && n.uid == v.uid && n.cid == v.cid
    && !v.ticket.hasResponse && v.cid in g.channels && v.cid !in g.typed
    && (n.WarnOwner? ==> Classify(now - v.ticket.openedAt, g.inactive) == Warn)
    && (n.CloseTicket? ==> Classify(now - v.ticket.openedAt, g.inactive) == Close && n.reason == CloseReason(g.inactive))
  }

  /** `valid` and the notices only grow, and `valid` gains no duplicate. */
  lemma {:induction false} SweepGrows(s: Sweep, vs: seq<Visit>, g: TicketGuild, now: real)
    ensures s.valid <= SweepAll(s, vs, g, now).valid
    ensures s.notices <= SweepAll(s, vs, g, now).notices
    ensures Distinct(s.valid) ==> Distinct(SweepAll(s, vs, g, now).valid)
    decreases |vs|
  {
    if vs != [] {
      SweepGrows(s, vs[..|vs| - 1], g, now);
    }
  }

  /**
   * A channel exempt before the sweep gets no notice, and every notice the
   * sweep issues is accounted for by one of the tickets it visited.
   */
  lemma {:induction false} SweepNotices(s: Sweep, vs: seq<Visit>, g: TicketGuild, now: real)
    ensures var r := SweepAll(s, vs, g, now);
      && |s.notices| <= |r.notices|
      && forall k :: |s.notices| <= k < |r.notices| ==>
           r.notices[k].cid !in s.valid && exists i :: 0 <= i < |vs| && Justifies(vs[i], r.notices[k], g, now)
    decreases |vs|
  {
    if vs != [] {
      var init := vs[..|vs| - 1];
      SweepNotices(s, init, g, now);
      SweepGrows(s, init, g, now);
      var r0 := SweepAll(s, init, g, now);
      var r := SweepAll(s, vs, g, now);
      forall k | |s.notices| <= k < |r.notices|
        ensures r.notices[k].cid !in s.valid && exists i :: 0 <= i < |vs| && Justifies(vs[i], r.notices[k], g, now)
      {
        if k < |r0.notices| {
          assert r.notices[k] == r0.notices[k];
          var i :| 0 <= i < |init| && Justifies(init[i], r0.notices[k], g, now);
          assert vs[i] == init[i];
        } else {
          assert Justifies(vs[|vs| - 1], r.notices[k], g, now);
          assert r.notices[k].cid !in r0.valid;
        }
      }
    }
  }

  /** A guild with auto-close off is left alone. */
  lemma GuildSweepOff(s: Sweep, g: TicketGuild, now: real)
    requires g.inactive == 0
    ensures GuildSweep(s, g, now) == s
  {
  }

  class TicketsCog {
    /** Channel keys of tickets answered or typed in: never auto-closed again. */
    var valid: seq<string>

    constructor ()
      ensures valid == []
    {
      valid := [];
    }

    /** The innermost body of `auto_close`: one ticket of one member. */
    method VisitTicket(g: TicketGuild, uid: string, cid: string, ticket: Ticket, now: real, notices: seq<Notice>)
      returns (r: seq<Notice>)
      modifies this`valid
      ensures Sweep(valid, r) == Step(Sweep(old(valid), notices), Visit(uid, cid, ticket), g, now)
    {
      r := notices;
      if ticket.hasResponse && cid !in valid {
        valid := valid + [cid];
        return;
      }
      if cid in valid {
        return;
      }
      if cid !in g.channels {
        return;
      }
      if cid in g.typed {
        valid := valid + [cid];
        return;
      }
      var td := now - ticket.openedAt;
      var action := Classify(td, g.inactive);
      if action == Warn {
        r := r + [WarnOwner(g.gid, uid, cid)];
      } else if action == Close {
        r := r + [CloseTicket(g.gid, uid, cid, CloseReason(g.inactive))];
      }
    }

    /** The per-member loop of `auto_close`. */
    method VisitMember(g: TicketGuild, uid: string, tickets: Dict<Ticket>, now: real, notices: seq<Notice>)
      returns (r: seq<Notice>)
      modifies this`valid
      ensures Sweep(valid, r) == SweepAll(Sweep(old(valid), notices), UserVisits(uid, tickets), g, now)
    {
      ghost var s0 := Sweep(valid, notices);
      ghost var vs := UserVisits(uid, tickets);
      r := notices;
      var j := 0;
      while j < |tickets|
        invariant 0 <= j <= |tickets|
        invariant Sweep(valid, r) == SweepAll(s0, vs[..j], g, now)
      {
        assert vs[..j + 1][..j] == vs[..j];
        r := VisitTicket(g, uid, tickets[j].0, tickets[j].1, now, r);
        j := j + 1;
      }
      assert vs[..j] == vs;
    }

    /** The per-guild body of `auto_close`. */
    method AutoCloseGuild(g: TicketGuild, now: real) returns (notices: seq<Notice>)
      modifies this`valid
      ensures Sweep(valid, notices) == GuildSweep(Sweep(old(valid), []), g, now)
    {
      notices := [];
      if g.inactive == 0 {
        return;
      }
      if g.openTickets == [] {
        return;
      }
      ghost var s0 := Sweep(valid, []);
      var i := 0;
      while i < |g.openTickets|
        invariant 0 <= i <= |g.openTickets|
        invariant Sweep(valid, notices) == SweepAll(s0, Visits(g.openTickets[..i], g.members), g, now)
      {
        assert g.openTickets[..i + 1][..i] == g.openTickets[..i];
        var uid := g.openTickets[i].0;
        var tickets := g.openTickets[i].1;
        if uid in g.members {
          SweepAllConcat(s0, Visits(g.openTickets[..i], g.members), UserVisits(uid, tickets), g, now);
          notices := VisitMember(g, uid, tickets, now, notices);
        }
        i := i + 1;
      }
      assert g.openTickets[..i] == g.openTickets;
    }

    /** `auto_close`: one sweep over every guild, in order. */
    method AutoClose(guilds: seq<TicketGuild>, now: real) returns (notices: seq<Notice>)
      modifies this`valid
      ensures Sweep(valid, notices) == SweepGuilds(Sweep(old(valid), []), guilds, now)
    {
      notices := [];
      var i := 0;
      while i < |guilds|
        invariant 0 <= i <= |guilds|
        invariant Sweep(valid, notices) == SweepGuilds(Sweep(old(valid), []), guilds[..i], now)
      {
        assert guilds[..i + 1][..i] == guilds[..i];
        ghost var s := Sweep(valid, notices);
        var more := AutoCloseGuild(guilds[i], now);
        SweepExtends(s, guilds[i], now);
        notices := notices + more;
        i := i + 1;
      }
      assert guilds[..i] == guilds;
    }
  }

  /** Sweeping two runs of tickets is sweeping the first, then the second. */
  lemma {:induction false} SweepAllConcat(s: Sweep, a: seq<Visit>, b: seq<Visit>, g: TicketGuild, now: real)
    ensures SweepAll(s, a + b, g, now) == SweepAll(SweepAll(s, a, g, now), b, g, now)
    decreases |b|
  {
    if b == [] {
      assert a + b == a;
    } else {
      assert (a + b)[..|a + b| - 1] == a + b[..|b| - 1];
      SweepAllConcat(s, a, b[..|b| - 1], g, now);
    }
  }

  /** A guild's sweep depends on the earlier notices only by appending to them. */
  lemma SweepExtends(s: Sweep, g: TicketGuild, now: real)
    ensures GuildSweep(s, g, now) ==
      var r := GuildSweep(Sweep(s.valid, []), g, now); Sweep(r.valid, s.notices + r.notices)
  {
    if !(g.inactive == 0 || g.openTickets == []) {
      SweepAllExtends(s, Visits(g.openTickets, g.members), g, now);
    }
  }

  lemma {:induction false} SweepAllExtends(s: Sweep, vs: seq<Visit>, g: TicketGuild, now: real)
    ensures SweepAll(s, vs, g, now) ==
      var r := SweepAll(Sweep(s.valid, []), vs, g, now); Sweep(r.valid, s.notices + r.notices)
    decreases |vs|
  {
    if vs != [] {
      SweepAllExtends(s, vs[..|vs| - 1], g, now);
      var r := SweepAll(Sweep(s.valid, []), vs[..|vs| - 1], g, now);
      forall n: Notice
        ensures (s.notices + r.notices) + [n] == s.notices + (r.notices + [n])
      {
      }
    }
  }

  /* ---------------------------------------------------------------- member left */

  /** The channel keys of `tickets` that `get_channel` resolves, in order. */
  function ResolvableKeys(tickets: Dict<Ticket>, channels: set<string>): seq<string>
    decreases |tickets|
  {
    if tickets == [] then []
    else
      var init := ResolvableKeys(tickets[..|tickets| - 1], channels);
      var cid := tickets[|tickets| - 1].0;
      if cid in channels then init + [cid] else init
  }

  /** Exactly the member's tickets whose channel still resolves are closed. */
  lemma {:induction false} ResolvableKeysIff(tickets: Dict<Ticket>, channels: set<string>, c: string)
    ensures c in ResolvableKeys(tickets, channels) <==> c in channels && exists j :: 0 <= j < |tickets| && tickets[j].0 == c
    decreases |tickets|
  {
    if tickets != [] {
      var init := tickets[..|tickets| - 1];
      ResolvableKeysIff(init, channels, c);
      assert forall j :: 0 <= j < |init| ==> init[j] == tickets[j];
    }
  }

  /**
   * `on_member_remove`: the channel keys of the departed member's tickets
   * to close with the reason "User left guild(Auto-Close)"; nothing when
   * the member has no entry in `opened` or an empty one.
   */
  method OnMemberRemove(open: Opened, memberId: int, channels: set<string>) returns (closes: seq<string>)
    ensures Lookup(open, IntToString(memberId)).None? ==> closes == []
    ensures Lookup(open, IntToString(memberId)).Some? ==> closes == ResolvableKeys(Lookup(open, IntToString(memberId)).value, channels)
  {
    var found := Lookup(open, IntToString(memberId));
    if found.None? {
      return [];
    }
    var tickets := found.value;
    if tickets == [] {
      return [];
    }
    closes := [];
    var j := 0;
    while j < |tickets|
      invariant 0 <= j <= |tickets|
      invariant closes == ResolvableKeys(tickets[..j], channels)
    {
      assert tickets[..j + 1][..j] == tickets[..j];
      if tickets[j].0 in channels {
        closes := closes + [tickets[j].0];
      }
      j := j + 1;
    }
    assert tickets[..j] == tickets;
  }

  /* ---------------------------------------------------------------- thread deleted */

  /**
   * What `on_thread_delete` did; `deleteLog` is the (channel, message) of
   * the log message it deletes. `LogDeleteFailed`: fetching or deleting
   * that message raised something other than `NotFound`.
   */
  datatype ThreadOutcome = NoTicket | PanelMissing | LogChannelMissing | LogDeleteFailed | Removed(uid: string, cid: string, deleteLog: Option<(int, int)>)

  /** The first (user, ticket) position, scanning users from `from`, whose channel key `m` accepts. */
  function FirstTicket(open: Opened, m: string -> bool, from: nat): (r: Option<(nat, nat)>)
    requires from <= |open|
    ensures r.Some? ==> from <= r.value.0 < |open| && IndexWhere(open[r.value.0].1, m, 0) == Some(r.value.1)
    ensures r.Some? ==> forall i :: from <= i < r.value.0 ==> IndexWhere(open[i].1, m, 0).None?
    ensures r.None? ==> forall i :: from <= i < |open| ==> IndexWhere(open[i].1, m, 0).None?
    decreases |open| - from
  {
    if from == |open| then None
    else match IndexWhere(open[from].1, m, 0)
      case Some(j) => Some((from, j))
      case None => FirstTicket(open, m, from + 1)
  }

  /** `del opened[uid][cid]`: the user's entry stays, possibly empty. */
  function RemoveTicket(open: Opened, i: nat, j: nat): Opened
    requires i < |open| && j < |open[i].1|
  {
    open[i := (open[i].0, open[i].1[..j] + open[i].1[j + 1..])]
  }

  /**
   * The effect of `on_thread_delete` when channel keys are compared with
   * `m`: the first matching ticket is removed and the search stops. A
   * ticket whose panel is gone raises before anything changes, as does one
   * whose log channel no longer resolves. `logDeleteRaises` says whether
   * fetching or deleting the log message raises an error other than
   * `NotFound` (a missing message is ignored); such an error escapes
   * before the entry is deleted.
   */
  function ThreadDeleted(open: Opened, panels: Panels, m: string -> bool, logChannels: set<int>, logDeleteRaises: bool): (Opened, ThreadOutcome)
  {
    match FirstTicket(open, m, 0)
    case None => (open, NoTicket)
    case Some((i, j)) =>
      var (cid, t) := open[i].1[j];
      match Lookup(panels, t.panel)
      case None => (open, PanelMissing)
      case Some(p) =>
        if p.logChannel != 0 && t.logmsg != 0 then
          if p.logChannel !in logChannels then (open, LogChannelMissing)
          else if logDeleteRaises then (open, LogDeleteFailed)
          else (RemoveTicket(open, i, j), Removed(open[i].0, cid, Some((p.logChannel, t.logmsg))))
        else (RemoveTicket(open, i, j), Removed(open[i].0, cid, None))
  }

  /** The intended comparison: the stored key is `str(thread.id)`. */
  function ThreadMatch(threadId: int): string -> bool
  {
    k => k == IntToString(threadId)
  }

  /**
   * The comparison as written, `channel_id != thread.id` with a string
   * key and an integer id: in Python a string never equals an integer.
   */
  function AsWrittenMatch(threadId: int): string -> bool
  {
    k => false
  }

  /** `on_thread_delete`, comparing keys with the thread id rendered as a key. */
  method OnThreadDelete(open: Opened, panels: Panels, threadId: int, logChannels: set<int>, logDeleteRaises: bool)
    returns (r: Opened, outcome: ThreadOutcome)
    ensures (r, outcome) == ThreadDeleted(open, panels, ThreadMatch(threadId), logChannels, logDeleteRaises)
  {
    var key := IntToString(threadId);
    ghost var m := ThreadMatch(threadId);
    var i := 0;
    while i < |open|
      invariant 0 <= i <= |open|
      invariant FirstTicket(open, m, 0) == FirstTicket(open, m, i)
    {
      var uid := open[i].0;
      var tickets := open[i].1;
      var j := 0;
      while j < |tickets|
        invariant 0 <= j <= |tickets|
        invariant IndexWhere(tickets, m, 0) == IndexWhere(tickets, m, j)
      {
        var cid := tickets[j].0;
        var t := tickets[j].1;
        if cid == key {
          assert IndexWhere(tickets, m, j) == Some(j);
          var panel := Lookup(panels, t.panel);
          if panel.None? {
            return open, PanelMissing;
          }
          var p := panel.value;
          var deleteLog := None;
          if p.logChannel != 0 && t.logmsg != 0 {
            if p.logChannel !in logChannels {
              return open, LogChannelMissing;
            }
            if logDeleteRaises {
              return open, LogDeleteFailed;
            }
            deleteLog := Some((p.logChannel, t.logmsg));
          }
          return open[i := (uid, tickets[..j] + tickets[j + 1..])], Removed(uid, cid, deleteLog);
        }
        j := j + 1;
      }
      i := i + 1;
    }
    return open, NoTicket;
  }

  /** The number of stored tickets. */
  function Count(open: Opened): nat
    decreases |open|
  {
    if open == [] then 0 else Count(open[..|open| - 1]) + |open[|open| - 1].1|
  }

  lemma {:induction false} CountUpdate(open: Opened, i: nat, x: (string, Dict<Ticket>))
    requires i < |open|
    ensures Count(open[i := x]) + |open[i].1| == Count(open) + |x.1|
    decreases |open|
  {
    var last := |open| - 1;
    if i == last {
      assert open[i := x][..last] == open[..last];
    } else {
      assert open[i := x][..last] == open[..last][i := x];
      CountUpdate(open[..last], i, x);
    }
  }

  /**
   * At most one ticket goes: on removal the count drops by one, every user
   * keeps their entry, and the removed key is one `m` accepts; on any other
   * outcome nothing changes.
   */
  predicate RemovesAtMostOne(open: Opened, r: Opened, outcome: ThreadOutcome, m: string -> bool)
  {
    && (!outcome.Removed? ==> r == open)
    && (outcome.Removed? ==>
          && Count(r) + 1 == Count(open)
          && |r| == |open| && (forall i :: 0 <= i < |r| ==> r[i].0 == open[i].0)
          && m(outcome.cid) && Lookup(open, outcome.uid).Some?)
  }

  /** `on_thread_delete` removes at most one ticket, one whose key matches, and keeps every user entry. */
  lemma ThreadDeletedRemovesOne(open: Opened, panels: Panels, m: string -> bool, logChannels: set<int>, logDeleteRaises: bool)
    ensures var (r, outcome) := ThreadDeleted(open, panels, m, logChannels, logDeleteRaises);
      RemovesAtMostOne(open, r, outcome, m)
  {
    var found := FirstTicket(open, m, 0);
    if found.Some? {
      var (i, j) := found.value;
      RemoveTicketEffect(open, i, j);
      assert open[i].0 == open[i].0 && 0 <= i < |open|;
    }
  }

  /** Removing one ticket: one fewer in all, every user entry kept. */
  lemma RemoveTicketEffect(open: Opened, i: nat, j: nat)
    requires i < |open| && j < |open[i].1|
    ensures Count(RemoveTicket(open, i, j)) + 1 == Count(open)
    ensures |RemoveTicket(open, i, j)| == |open| && forall k :: 0 <= k < |open| ==> RemoveTicket(open, i, j)[k].0 == open[k].0
  {
    var x := (open[i].0, open[i].1[..j] + open[i].1[j + 1..]);
    CountUpdate(open, i, x);
  }

  /** Whatever `opened` holds, the handler as written removes nothing. */
  lemma AsWrittenNeverRemoves(open: Opened, panels: Panels, threadId: int, logChannels: set<int>, logDeleteRaises: bool)
    ensures ThreadDeleted(open, panels, AsWrittenMatch(threadId), logChannels, logDeleteRaises) == (open, NoTicket)
  {
  }

  /**
   * A deleted ticket thread keyed "42": the handler as written keeps the
   * stale entry, the intended comparison removes it.
   */
  lemma AsWrittenKeepsStaleTicket()
    ensures var open: Opened := [("1", [("42", Ticket("support", 0, 0.0, false))])];
      var panels: Panels := [("support", Panel(10, 20, 30, 0, None, None))];
      && ThreadDeleted(open, panels, AsWrittenMatch(42), {}, false) == (open, NoTicket)
      && ThreadDeleted(open, panels, ThreadMatch(42), {}, false) == ([("1", [])], Removed("1", "42", None))
  {
    var open: Opened := [("1", [("42", Ticket("support", 0, 0.0, false))])];
    var panels: Panels := [("support", Panel(10, 20, 30, 0, None, None))];
    AsWrittenNeverRemoves(open, panels, 42, {}, false);
    assert IntToString(42) == "42";
    assert IndexWhere(open[0].1, ThreadMatch(42), 0) == Some(0);
    assert FirstTicket(open, ThreadMatch(42), 0) == Some((0, 0));
    assert Lookup(panels, "support") == Some(Panel(10, 20, 30, 0, None, None));
    assert open[0].1[..0] + open[0].1[1..] == [];
    assert open[0 := ("1", [])] == [("1", [])];
  }
}
