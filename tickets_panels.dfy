/**
 * The panel refresh of the ticket cog's `initialize`: which configured
 * panels get their buttons redeployed, with what defaults, and how panels
 * sharing one message are grouped into a single view.
 */
module TicketPanels {
  import opened Wrappers
  import opened Json
  import opened Decimal

  /**
   * A ticket panel as stored in the guild config. `modals` is None for
   * panels saved before modals existed; `name` is None until `initialize`
   * copies the panel's dictionary key into it.
   */
  datatype Panel = Panel(categoryId: int, channelId: int, messageId: int, logChannel: int,
                         modals: Option<map<string, Json>>, name: Option<string>)

  /** The guild's `panels` dictionary, in insertion order. */
  type Panels = seq<(string, Panel)>

  /**
   * What `initialize` can see of a guild: the channel ids `get_channel`
   * resolves, and the (channel, message) pairs `fetch_message` finds.
   */
  datatype GuildView = GuildView(channels: set<int>, messages: set<(int, int)>)

  /** A panel is redeployed when its three ids are set and resolve. */
  predicate Deployable(p: Panel, g: GuildView)
  {
    && p.categoryId != 0 && p.channelId != 0 && p.messageId != 0
    && p.categoryId in g.channels && p.channelId in g.channels
    && (p.channelId, p.messageId) in g.messages
  }

  /** The panel as handed to its view: modals defaulted when absent, name set to its key. */
  function Prepared(key: string, p: Panel): (q: Panel)
    ensures q.name == Some(key)
    ensures p.modals.Some? ==> q.modals == p.modals
    ensures p.modals.None? ==> q.modals == Some(map[])
    ensures q.(modals := p.modals, name := p.name) == p
  {
    p.(modals := if p.modals.None? then Some(map[]) else p.modals, name := Some(key))
  }

  /** `f"{cid}-{mid}"`: panels on one message share one view. */
  function KeyOf(p: Panel): string
  {
    IntToString(p.channelId) + "-" + IntToString(p.messageId)
  }

  /** The prepared panels of group `k`, in dictionary order. */
  function Group(panels: Panels, g: GuildView, k: string): seq<Panel>
    decreases |panels|
  {
    if panels == [] then []
    else
      var init := Group(panels[..|panels| - 1], g, k);
      var (n, p) := panels[|panels| - 1];
      if Deployable(p, g) && KeyOf(p) == k then init + [Prepared(n, p)] else init
  }

  /** The group keys, in order of their first deployable panel. */
  function KeyOrder(panels: Panels, g: GuildView): seq<string>
    decreases |panels|
  {
    if panels == [] then []
    else
      var init := KeyOrder(panels[..|panels| - 1], g);
      var p := panels[|panels| - 1].1;
      if Deployable(p, g) && KeyOf(p) !in init then init + [KeyOf(p)] else init
  }

  /** `to_deploy`: an insertion-ordered dictionary from group key to its panels. */
  datatype Deploy = Deploy(order: seq<string>, groups: map<string, seq<Panel>>)

  /** `d` is the `to_deploy` of `panels`: the key order, and each key's group. */
  ghost predicate Collected(d: Deploy, panels: Panels, g: GuildView)
  {
    && d.order == KeyOrder(panels, g)
    && (forall k :: k in d.groups <==> k in d.order)
    && (forall k :: k in d.groups ==> d.groups[k] == Group(panels, g, k))
  }

  /** Adding the prepared panel `q` under `key`, as one iteration of the loop does. */
  function Added(d: Deploy, key: string, q: Panel): Deploy
  {
    if key in d.groups then d.(groups := d.groups[key := d.groups[key] + [q]])
    else Deploy(d.order + [key], d.groups[key := [q]])
  }

  lemma CollectStep(panels: Panels, i: int, g: GuildView, d: Deploy)
    requires 0 <= i < |panels| && Collected(d, panels[..i], g)
    ensures Collected(if Deployable(panels[i].1, g) then Added(d, KeyOf(panels[i].1), Prepared(panels[i].0, panels[i].1)) else d, panels[..i + 1], g)
  {
    var n := panels[i].0;
    var p := panels[i].1;
    KeyOrderStep(panels, i, g);
    if Deployable(p, g) {
      var key := KeyOf(p);
      var d' := Added(d, key, Prepared(n, p));
      forall k | k in d'.groups
        ensures d'.groups[k] == Group(panels[..i + 1], g, k)
      {
        GroupStep(panels, i, g, k);
        KeyOrderIff(panels[..i], g, k);
      }
    } else {
      forall k | k in d.groups
        ensures d.groups[k] == Group(panels[..i + 1], g, k)
      {
        GroupStep(panels, i, g, k);
      }
    }
  }

  /** The body of the panel loop of `initialize`, building `to_deploy`. */
  method CollectPanels(panels: Panels, g: GuildView) returns (d: Deploy)
    ensures d.order == KeyOrder(panels, g)
    ensures forall k :: k in d.groups <==> k in d.order
    ensures forall k :: k in d.groups ==> d.groups[k] == Group(panels, g, k)
  {
    d := Deploy([], map[]);
    var i := 0;
    while i < |panels|
      invariant 0 <= i <= |panels|
      invariant Collected(d, panels[..i], g)
    {
      CollectStep(panels, i, g, d);
      var name := panels[i].0;
      var panel := panels[i].1;
      if Deployable(panel, g) {
        var q := Prepared(name, panel);
        var key := KeyOf(panel);
        if key in d.groups {
          d := d.(groups := d.groups[key := d.groups[key] + [q]]);
        } else {
          d := Deploy(d.order + [key], d.groups[key := [q]]);
        }
      }
      i := i + 1;
    }
    assert panels[..i] == panels;
  }

  /** Panel `i` is deployable, renders to `k` and, prepared, is `q`. */
  predicate Contributes(panels: Panels, g: GuildView, k: string, i: int, q: Panel)
    requires 0 <= i < |panels|
  {
    Deployable(panels[i].1, g) && KeyOf(panels[i].1) == k && q == Prepared(panels[i].0, panels[i].1)
  }

  /** How one more panel extends a group. */
  lemma GroupStep(panels: Panels, i: int, g: GuildView, k: string)
    requires 0 <= i < |panels|
    ensures Group(panels[..i + 1], g, k) ==
      if Deployable(panels[i].1, g) && KeyOf(panels[i].1) == k then Group(panels[..i], g, k) + [Prepared(panels[i].0, panels[i].1)]
      else Group(panels[..i], g, k)
  {
    assert panels[..i + 1][..i] == panels[..i];
  }

  /** How one more panel extends the key order. */
  lemma KeyOrderStep(panels: Panels, i: int, g: GuildView)
    requires 0 <= i < |panels|
    ensures KeyOrder(panels[..i + 1], g) ==
      if Deployable(panels[i].1, g) && KeyOf(panels[i].1) !in KeyOrder(panels[..i], g) then KeyOrder(panels[..i], g) + [KeyOf(panels[i].1)]
      else KeyOrder(panels[..i], g)
  {
    assert panels[..i + 1][..i] == panels[..i];
  }

  /** Every deployable panel lands, prepared, in the group of its key. */
  lemma {:induction false} GroupComplete(panels: Panels, g: GuildView, k: string, i: int)
    requires 0 <= i < |panels| && Deployable(panels[i].1, g) && KeyOf(panels[i].1) == k
    ensures Prepared(panels[i].0, panels[i].1) in Group(panels, g, k)
    decreases |panels|
  {
    var last := |panels| - 1;
    if i < last {
      assert panels[..last][i] == panels[i];
      GroupComplete(panels[..last], g, k, i);
    }
  }

  /** A group holds nothing but prepared deployable panels of its key. */
  lemma {:induction false} GroupOnly(panels: Panels, g: GuildView, k: string, q: Panel)
    requires q in Group(panels, g, k)
    ensures exists i :: 0 <= i < |panels| && Contributes(panels, g, k, i, q)
    decreases |panels|
  {
    var last := |panels| - 1;
    var init := panels[..last];
    if q in Group(init, g, k) {
      GroupOnly(init, g, k, q);
      var i :| 0 <= i < |init| && Contributes(init, g, k, i, q);
      assert init[i] == panels[i];
      assert Contributes(panels, g, k, i, q);
    } else {
      assert Contributes(panels, g, k, last, q);
    }
  }

  /**
   * Group `k` holds exactly the prepared deployable panels whose channel
   * and message render to `k`.
   */
  lemma GroupMembers(panels: Panels, g: GuildView, k: string, q: Panel)
    ensures q in Group(panels, g, k) <==> exists i :: 0 <= i < |panels| && Contributes(panels, g, k, i, q)
  {
    if q in Group(panels, g, k) {
      GroupOnly(panels, g, k, q);
    }
    if exists i :: 0 <= i < |panels| && Contributes(panels, g, k, i, q) {
      var i :| 0 <= i < |panels| && Contributes(panels, g, k, i, q);
      GroupComplete(panels, g, k, i);
    }
  }

  /** Every panel handed to a view is deployable, named, has modals and belongs to its key. */
  lemma {:induction false} GroupSound(panels: Panels, g: GuildView, k: string)
    ensures forall q :: q in Group(panels, g, k) ==> Deployable(q, g) && KeyOf(q) == k && q.name.Some? && q.modals.Some?
    decreases |panels|
  {
    if panels != [] {
      GroupSound(panels[..|panels| - 1], g, k);
    }
  }

  /** A key is listed exactly when its group is non-empty. */
  lemma {:induction false} KeyOrderIff(panels: Panels, g: GuildView, k: string)
    ensures k in KeyOrder(panels, g) <==> Group(panels, g, k) != []
    decreases |panels|
  {
    if panels != [] {
      KeyOrderIff(panels[..|panels| - 1], g, k);
    }
  }

  /** No key is listed twice, so each group gets one view. */
  lemma {:induction false} KeyOrderDistinct(panels: Panels, g: GuildView)
    ensures forall i, j :: 0 <= i < j < |KeyOrder(panels, g)| ==> KeyOrder(panels, g)[i] != KeyOrder(panels, g)[j]
    decreases |panels|
  {
    if panels != [] {
      KeyOrderDistinct(panels[..|panels| - 1], g);
    }
  }

  /** Nothing is deployed exactly when no panel is deployable. */
  lemma {:induction false} NothingToDeployIff(panels: Panels, g: GuildView)
    ensures KeyOrder(panels, g) == [] <==> forall i :: 0 <= i < |panels| ==> !Deployable(panels[i].1, g)
    decreases |panels|
  {
    if panels != [] {
      var init := panels[..|panels| - 1];
      NothingToDeployIff(init, g);
      assert forall i :: 0 <= i < |init| ==> init[i] == panels[i];
      if KeyOrder(init, g) != [] {
        assert KeyOrder(panels, g) != [];
      }
    }
  }

  /** For Discord's non-negative ids, two panels share a group exactly when they share channel and message. */
  lemma SameGroupIff(p: Panel, q: Panel)
    requires p.channelId >= 0 && p.messageId >= 0 && q.channelId >= 0 && q.messageId >= 0
    ensures KeyOf(p) == KeyOf(q) <==> p.channelId == q.channelId && p.messageId == q.messageId
  {
    if KeyOf(p) == KeyOf(q) {
      DashedKeyInjective(p.channelId, p.messageId, q.channelId, q.messageId);
    }
  }

  /** A guild's stored ticket config, as far as the panel refresh reads it. */
  datatype GuildPanels = GuildPanels(gid: int, panels: Panels)

  /** A `PanelView` started for one group of panels of one guild. */
  datatype View = View(gid: int, panels: seq<Panel>)

  /** The views of one guild, one per group, in key order. */
  function GuildViews(gid: int, panels: Panels, g: GuildView): seq<View>
  {
    var order := KeyOrder(panels, g);
    seq(|order|, i requires 0 <= i < |order| => View(gid, Group(panels, g, order[i])))
  }

  /**
   * The views `initialize` starts: guilds other than the target, guilds
   * the bot cannot resolve and guilds with nothing deployable are skipped.
   */
  function StartedViews(confs: seq<GuildPanels>, target: Option<int>, env: map<int, GuildView>): seq<View>
    decreases |confs|
  {
    if confs == [] then []
    else
      var init := StartedViews(confs[..|confs| - 1], target, env);
      var c := confs[|confs| - 1];
      if (target.Some? && target.value != c.gid) || c.gid !in env then init
      else init + GuildViews(c.gid, c.panels, env[c.gid])
  }

  /** One guild's part of `initialize`: one view per group, in key order. */
  method StartGuildViews(gid: int, panels: Panels, g: GuildView) returns (views: seq<View>)
    ensures views == GuildViews(gid, panels, g)
  {
    var d := CollectPanels(panels, g);
    if d.order == [] {
      return [];
    }
    ghost var all := GuildViews(gid, panels, g);
    views := [];
    var j := 0;
    while j < |d.order|
      invariant 0 <= j <= |d.order|
      invariant views == all[..j]
    {
      assert all[..j + 1] == all[..j] + [View(gid, d.groups[d.order[j]])];
      views := views + [View(gid, d.groups[d.order[j]])];
      j := j + 1;
    }
    assert all[..j] == all;
  }

  /**
   * `initialize(target_guild)`, panel part: collect each guild's groups
   * and start one view per group. An empty stored config has no panels and
   * so is skipped like a guild with nothing deployable.
   */
  method Initialize(confs: seq<GuildPanels>, target: Option<int>, env: map<int, GuildView>) returns (views: seq<View>)
    ensures views == StartedViews(confs, target, env)
  {
    views := [];
    var i := 0;
    while i < |confs|
      invariant 0 <= i <= |confs|
      invariant views == StartedViews(confs[..i], target, env)
    {
      assert confs[..i + 1][..i] == confs[..i];
      var c := confs[i];
      if (target.None? || target.value == c.gid) && c.gid in env {
        var more := StartGuildViews(c.gid, c.panels, env[c.gid]);
        views := views + more;
      }
      i := i + 1;
    }
    assert confs[..i] == confs;
  }

  /**
   * Every started view belongs to the target guild (when one is given), to
   * a guild the bot resolves, and holds a non-empty group of deployable
   * panels on one message.
   */
  lemma {:induction false} StartedViewsSound(confs: seq<GuildPanels>, target: Option<int>, env: map<int, GuildView>)
    ensures forall v :: v in StartedViews(confs, target, env) ==>
      && (target.Some? ==> v.gid == target.value)
      && v.gid in env
      && v.panels != []
      && forall q :: q in v.panels ==> Deployable(q, env[v.gid]) && KeyOf(q) == KeyOf(v.panels[0])
    decreases |confs|
  {
    if confs != [] {
      StartedViewsSound(confs[..|confs| - 1], target, env);
      var c := confs[|confs| - 1];
      if !((target.Some? && target.value != c.gid) || c.gid !in env) {
        var order := KeyOrder(c.panels, env[c.gid]);
        forall i | 0 <= i < |order|
          ensures Group(c.panels, env[c.gid], order[i]) != []
          ensures forall q :: q in Group(c.panels, env[c.gid], order[i]) ==> Deployable(q, env[c.gid]) && KeyOf(q) == order[i]
        {
          KeyOrderIff(c.panels, env[c.gid], order[i]);
          GroupSound(c.panels, env[c.gid], order[i]);
        }
      }
    }
  }
}
