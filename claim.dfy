/** Claimed-ticket permission overwrites (bot/logic/claim.go): the two
    list builders, the choice between them, and the order of effects of a
    claim. Permission bit sets are sets of permissions; the standard
    permission set and the opener's overwrite, whose builders are not part
    of this model, are inputs. */
module Claim {

  import opened Base

  datatype Permission = ViewChannel | ReadMessageHistory | SendMessages | AddReactions | OtherPermission(bit: nat)

  datatype OverwriteKind = RoleOverwrite | MemberOverwrite

  /** channel.PermissionOverwrite. */
  datatype Overwrite = Overwrite(id: nat, kind: OverwriteKind, allow: set<Permission>, deny: set<Permission>)

  /** The @everyone role (whose id is the guild's) loses ViewChannel. */
  function EveryoneHidden(guildId: nat): Overwrite {
    Overwrite(guildId, RoleOverwrite, {}, {ViewChannel})
  }

  const ReadOnlyAllowed: set<Permission> := {ViewChannel, ReadMessageHistory}
  const ReadOnlyDenied: set<Permission> := {SendMessages, AddReactions}

  /** One overwrite per id, in order, each allowing `allow` and denying
      `deny`. */
  function Grants(ids: seq<nat>, kind: OverwriteKind, allow: set<Permission>, deny: set<Permission>): (r: seq<Overwrite>)
    ensures |r| == |ids|
    ensures forall i :: 0 <= i < |ids| ==> r[i] == Overwrite(ids[i], kind, allow, deny)
  {
    if ids == [] then [] else Grants(ids[..|ids| - 1], kind, allow, deny) + [Overwrite(ids[|ids| - 1], kind, allow, deny)]
  }

  /** The support users that get a read-only overwrite: every one except
      the claimer and the bot, admins included. */
  function ReadOnlyUsers(supportUsers: seq<nat>, claimer: nat, self: nat): seq<nat> {
    if supportUsers == [] then []
    else
      var last := supportUsers[|supportUsers| - 1];
      ReadOnlyUsers(supportUsers[..|supportUsers| - 1], claimer, self)
        + (if last == claimer || last == self then [] else [last])
  }

  /** Specification of overwritesCantView. */
  function CantView(opener: Overwrite, claimer: nat, self: nat, guildId: nat,
                    adminUsers: seq<nat>, adminRoles: seq<nat>, standard: set<Permission>): (r: seq<Overwrite>)
    ensures |r| == 4 + |adminUsers| + |adminRoles|
    ensures r[0] == opener && r[1] == EveryoneHidden(guildId)
    ensures forall i :: 2 <= i < |r| ==> r[i].allow == standard && r[i].deny == {}
  {
    [opener, EveryoneHidden(guildId)]
      + Grants(adminUsers + [claimer, self], MemberOverwrite, standard, {})
      + Grants(adminRoles, RoleOverwrite, standard, {})
  }

  /** Specification of overwritesCantType. */
  function CantType(opener: Overwrite, claimer: nat, self: nat, guildId: nat,
                    supportUsers: seq<nat>, supportRoles: seq<nat>,
                    adminUsers: seq<nat>, adminRoles: seq<nat>, standard: set<Permission>): (r: seq<Overwrite>)
    ensures var view := CantView(opener, claimer, self, guildId, adminUsers, adminRoles, standard);
      |r| == |view| + |ReadOnlyUsers(supportUsers, claimer, self)| + |supportRoles| &&
      r[..|view|] == view &&
      forall i :: |view| <= i < |r| ==> r[i].allow == ReadOnlyAllowed && r[i].deny == ReadOnlyDenied
  {
    CantView(opener, claimer, self, guildId, adminUsers, adminRoles, standard)
      + Grants(ReadOnlyUsers(supportUsers, claimer, self), MemberOverwrite, ReadOnlyAllowed, ReadOnlyDenied)
      + Grants(supportRoles, RoleOverwrite, ReadOnlyAllowed, ReadOnlyDenied)
  }

  /** Appends one overwrite per id to `overwrites`. */
  method AppendGrants(overwrites: seq<Overwrite>, ids: seq<nat>, kind: OverwriteKind,
                      allow: set<Permission>, deny: set<Permission>) returns (r: seq<Overwrite>)
    ensures r == overwrites + Grants(ids, kind, allow, deny)
  {
    r := overwrites;
    for i := 0 to |ids|
      invariant r == overwrites + Grants(ids[..i], kind, allow, deny)
    {
      assert ids[..i + 1][..i] == ids[..i];
      r := r + [Overwrite(ids[i], kind, allow, deny)];
    }
    assert ids[..|ids|] == ids;
  }

  method OverwritesCantView(opener: Overwrite, claimer: nat, self: nat, guildId: nat,
                            adminUsers: seq<nat>, adminRoles: seq<nat>, standard: set<Permission>)
    returns (overwrites: seq<Overwrite>)
    ensures overwrites == CantView(opener, claimer, self, guildId, adminUsers, adminRoles, standard)
  {
    overwrites := [opener, EveryoneHidden(guildId)];
    overwrites := AppendGrants(overwrites, adminUsers + [claimer, self], MemberOverwrite, standard, {});
    overwrites := AppendGrants(overwrites, adminRoles, RoleOverwrite, standard, {});
  }

  method OverwritesCantType(opener: Overwrite, claimer: nat, self: nat, guildId: nat,
                            supportUsers: seq<nat>, supportRoles: seq<nat>,
                            adminUsers: seq<nat>, adminRoles: seq<nat>, standard: set<Permission>)
    returns (overwrites: seq<Overwrite>)
    ensures overwrites == CantType(opener, claimer, self, guildId, supportUsers, supportRoles, adminUsers, adminRoles, standard)
  {
    overwrites := [opener, EveryoneHidden(guildId)];
    overwrites := AppendGrants(overwrites, adminUsers + [claimer, self], MemberOverwrite, standard, {});
    overwrites := AppendGrants(overwrites, adminRoles, RoleOverwrite, standard, {});
    ghost var base := overwrites;
    for i := 0 to |supportUsers|
      invariant overwrites == base + Grants(ReadOnlyUsers(supportUsers[..i], claimer, self), MemberOverwrite, ReadOnlyAllowed, ReadOnlyDenied)
    {
      assert supportUsers[..i + 1][..i] == supportUsers[..i];
      var userId := supportUsers[i];
      if userId == claimer || userId == self {
        continue;
      }
      // the admin check continues only its own loop
      for k := 0 to |adminUsers| {
        if userId == adminUsers[k] {
          continue;
        }
      }
      ghost var kept := ReadOnlyUsers(supportUsers[..i + 1], claimer, self);
      assert kept == ReadOnlyUsers(supportUsers[..i], claimer, self) + [userId];
      assert kept[..|kept| - 1] == ReadOnlyUsers(supportUsers[..i], claimer, self);
      overwrites := overwrites + [Overwrite(userId, MemberOverwrite, ReadOnlyAllowed, ReadOnlyDenied)];
    }
    assert supportUsers[..|supportUsers|] == supportUsers;
    var rolesPart := [];
    for i := 0 to |supportRoles|
      invariant rolesPart == Grants(supportRoles[..i], RoleOverwrite, ReadOnlyAllowed, ReadOnlyDenied)
    {
      assert supportRoles[..i + 1][..i] == supportRoles[..i];
      var roleId := supportRoles[i];
      // compared against the admin USERS, and the continue is as inert
      for k := 0 to |adminUsers| {
        if roleId == adminUsers[k] {
          continue;
        }
      }
      rolesPart := rolesPart + [Overwrite(roleId, RoleOverwrite, ReadOnlyAllowed, ReadOnlyDenied)];
    }
    assert supportRoles[..|supportRoles|] == supportRoles;
    overwrites := overwrites + rolesPart;
  }

  // ---------------------------------------------------------------------
  // Properties of the two lists
  // ---------------------------------------------------------------------

  /** The can't-view list: the opener, @everyone hidden, each admin user,
      the claimer and the bot with the standard permissions, then each
      admin role likewise, and nothing else. */
  lemma CantViewLayout(opener: Overwrite, claimer: nat, self: nat, guildId: nat,
                       adminUsers: seq<nat>, adminRoles: seq<nat>, standard: set<Permission>)
    ensures var r := CantView(opener, claimer, self, guildId, adminUsers, adminRoles, standard);
      var n := |adminUsers|;
      |r| == 2 + n + 2 + |adminRoles| &&
      r[0] == opener && r[1] == Overwrite(guildId, RoleOverwrite, {}, {ViewChannel}) &&
      (forall i :: 0 <= i < n ==> r[2 + i] == Overwrite(adminUsers[i], MemberOverwrite, standard, {})) &&
      r[2 + n] == Overwrite(claimer, MemberOverwrite, standard, {}) &&
      r[3 + n] == Overwrite(self, MemberOverwrite, standard, {}) &&
      (forall i :: 0 <= i < |adminRoles| ==> r[4 + n + i] == Overwrite(adminRoles[i], RoleOverwrite, standard, {}))
  {
    var users := adminUsers + [claimer, self];
    var n := |adminUsers|;
    assert users[n] == claimer && users[n + 1] == self;
    assert forall i :: 0 <= i < n ==> users[i] == adminUsers[i];
  }

  /** The read-only users keep the order of the support users: filtering
      a concatenation filters each part in turn. */
  lemma {:induction false} ReadOnlyUsersAppend(a: seq<nat>, b: seq<nat>, claimer: nat, self: nat)
    ensures ReadOnlyUsers(a + b, claimer, self) == ReadOnlyUsers(a, claimer, self) + ReadOnlyUsers(b, claimer, self)
    decreases |b|
  {
    if b == [] {
      assert a + b == a;
    } else {
      var init := b[..|b| - 1];
      ReadOnlyUsersAppend(a, init, claimer, self);
      assert (a + b)[..|a + b| - 1] == a + init;
      assert (a + b)[|a + b| - 1] == b[|b| - 1];
    }
  }

  lemma {:induction false} ReadOnlyUsersMembers(supportUsers: seq<nat>, claimer: nat, self: nat)
    ensures forall u :: u in ReadOnlyUsers(supportUsers, claimer, self) <==>
      u in supportUsers && u != claimer && u != self
  {
    if supportUsers != [] {
      var init := supportUsers[..|supportUsers| - 1];
      ReadOnlyUsersMembers(init, claimer, self);
      assert supportUsers == init + [supportUsers[|supportUsers| - 1]];
    }
  }

  /** The can't-type list extends the can't-view list with read-only
      overwrites: a member one for each support user other than the claimer
      and the bot, admin or not, and a role one for every support role. */
  lemma CantTypeLayout(opener: Overwrite, claimer: nat, self: nat, guildId: nat,
                       supportUsers: seq<nat>, supportRoles: seq<nat>,
                       adminUsers: seq<nat>, adminRoles: seq<nat>, standard: set<Permission>)
    ensures var view := CantView(opener, claimer, self, guildId, adminUsers, adminRoles, standard);
      var r := CantType(opener, claimer, self, guildId, supportUsers, supportRoles, adminUsers, adminRoles, standard);
      var m := |ReadOnlyUsers(supportUsers, claimer, self)|;
      |r| == |view| + m + |supportRoles| && r[..|view|] == view &&
      (forall u :: Overwrite(u, MemberOverwrite, ReadOnlyAllowed, ReadOnlyDenied) in r[|view|..|view| + m] <==>
         u in supportUsers && u != claimer && u != self) &&
      (forall i :: 0 <= i < |supportRoles| ==>
         r[|view| + m + i] == Overwrite(supportRoles[i], RoleOverwrite, ReadOnlyAllowed, ReadOnlyDenied)) &&
      r[|view|..|view| + m] == Grants(ReadOnlyUsers(supportUsers, claimer, self), MemberOverwrite, ReadOnlyAllowed, ReadOnlyDenied) &&
      r[|view| + m..] == Grants(supportRoles, RoleOverwrite, ReadOnlyAllowed, ReadOnlyDenied)
  {
    var view := CantView(opener, claimer, self, guildId, adminUsers, adminRoles, standard);
    var users := ReadOnlyUsers(supportUsers, claimer, self);
    var g := Grants(users, MemberOverwrite, ReadOnlyAllowed, ReadOnlyDenied);
    var h := Grants(supportRoles, RoleOverwrite, ReadOnlyAllowed, ReadOnlyDenied);
    var r := CantType(opener, claimer, self, guildId, supportUsers, supportRoles, adminUsers, adminRoles, standard);
    assert r == view + g + h;
    assert r[..|view|] == view;
    assert r[|view|..|view| + |users|] == g;
    assert r[|view| + |users|..] == h;
    ReadOnlyUsersMembers(supportUsers, claimer, self);
    GrantsMembers(users, MemberOverwrite, ReadOnlyAllowed, ReadOnlyDenied);
    forall i | 0 <= i < |supportRoles|
      ensures r[|view| + |users| + i] == Overwrite(supportRoles[i], RoleOverwrite, ReadOnlyAllowed, ReadOnlyDenied)
    {
      assert r[|view| + |users| + i] == h[i];
    }
  }

  /** An id gets an overwrite from Grants exactly when it is listed. */
  lemma GrantsMembers(ids: seq<nat>, kind: OverwriteKind, allow: set<Permission>, deny: set<Permission>)
    ensures forall u :: Overwrite(u, kind, allow, deny) in Grants(ids, kind, allow, deny) <==> u in ids
  {
    var g := Grants(ids, kind, allow, deny);
    forall u
      ensures Overwrite(u, kind, allow, deny) in g <==> u in ids
    {
      if u in ids {
        var i :| 0 <= i < |ids| && ids[i] == u;
        assert g[i] == Overwrite(u, kind, allow, deny);
      }
      if Overwrite(u, kind, allow, deny) in g {
        var i :| 0 <= i < |g| && g[i] == Overwrite(u, kind, allow, deny);
        assert ids[i] == u;
      }
    }
  }

  /** The admin check does not exclude anyone: a support user who is also
      an admin, and neither the claimer nor the bot, gets both the standard
      and a read-only overwrite. */
  lemma AdminSupportUserAlsoReadOnly(opener: Overwrite, claimer: nat, self: nat, guildId: nat,
                                     u: nat, adminRoles: seq<nat>, standard: set<Permission>)
    requires u != claimer && u != self
    ensures var r := CantType(opener, claimer, self, guildId, [u], [], [u], adminRoles, standard);
      Overwrite(u, MemberOverwrite, standard, {}) in r &&
      Overwrite(u, MemberOverwrite, ReadOnlyAllowed, ReadOnlyDenied) in r
  {
    CantViewLayout(opener, claimer, self, guildId, [u], adminRoles, standard);
    CantTypeLayout(opener, claimer, self, guildId, [u], [], [u], adminRoles, standard);
    var view := CantView(opener, claimer, self, guildId, [u], adminRoles, standard);
    var r := CantType(opener, claimer, self, guildId, [u], [], [u], adminRoles, standard);
    assert r[2] == view[2];
  }

  // ---------------------------------------------------------------------
  // GenerateClaimedOverwrites (lines 75-154)
  // ---------------------------------------------------------------------

  datatype ClaimSettings = ClaimSettings(supportCanView: bool, supportCanType: bool)

  /** The guild's extra permissions for ticket openers, left abstract. */
  datatype TicketPermissions = TicketPermissions(bits: set<Permission>)

  /** Every database read GenerateClaimedOverwrites may make. */
  datatype ClaimLookups = ClaimLookups(
    settings: Result<ClaimSettings>,
    adminUsers: Result<seq<nat>>,
    adminRoles: Result<seq<nat>>,
    additional: Result<TicketPermissions>,
    supportUsers: Result<seq<nat>>,
    supportRoles: Result<seq<nat>>,
    teamUsers: Result<seq<nat>>,
    teamRoles: Result<seq<nat>>)

  /** The ticket fields the claim logic reads. */
  datatype Ticket = Ticket(id: nat, guildId: nat, userId: nat, channelId: Option<nat>, isThread: bool, panelId: Option<nat>)

  /** Ok(None) means "leave the permissions as they are". `buildOpener`
      stands for BuildUserOverwrite and `standard` for StandardPermissions;
      `otherUsers` is accepted and never read. */
  function GenerateClaimedOverwrites(db: ClaimLookups, t: Ticket, claimer: nat, self: nat,
                                     otherUsers: seq<nat>, standard: set<Permission>,
                                     buildOpener: (nat, TicketPermissions) -> Overwrite)
    : (r: Result<Option<seq<Overwrite>>>)
    ensures r.Ok? && r.value.Some? ==>
      db.additional.Ok? && |r.value.value| >= 4 &&
      r.value.value[0] == buildOpener(t.userId, db.additional.value) &&
      r.value.value[1] == EveryoneHidden(t.guildId)
  {
    match db.settings
    case Err(e) => Err(e)
    case Ok(s) =>
      if s.supportCanView && s.supportCanType then Ok(None)
      else if db.adminUsers.Err? then Err(db.adminUsers.error)
      else if db.adminRoles.Err? then Err(db.adminRoles.error)
      else if db.additional.Err? then Err(db.additional.error)
      else
        var opener := buildOpener(t.userId, db.additional.value);
        if !s.supportCanView then
          Ok(Some(CantView(opener, claimer, self, t.guildId, db.adminUsers.value, db.adminRoles.value, standard)))
        else if db.supportUsers.Err? then Err(db.supportUsers.error)
        else if db.supportRoles.Err? then Err(db.supportRoles.error)
        else if t.panelId.Some? && db.teamUsers.Err? then Err(db.teamUsers.error)
        else if t.panelId.Some? && db.teamRoles.Err? then Err(db.teamRoles.error)
        else
          var users := db.supportUsers.value + (if t.panelId.Some? then db.teamUsers.value else []);
          var roles := db.supportRoles.value + (if t.panelId.Some? then db.teamRoles.value else []);
          Ok(Some(CantType(opener, claimer, self, t.guildId, users, roles,
                           db.adminUsers.value, db.adminRoles.value, standard)))
  }

  /** Nil overwrites exactly when support may both view and type. */
  lemma NoChangeIffSupportUnrestricted(db: ClaimLookups, t: Ticket, claimer: nat, self: nat,
                                       otherUsers: seq<nat>, standard: set<Permission>,
                                       buildOpener: (nat, TicketPermissions) -> Overwrite)
    ensures GenerateClaimedOverwrites(db, t, claimer, self, otherUsers, standard, buildOpener) == Ok(None)
            <==> db.settings == Ok(ClaimSettings(true, true))
  {
  }

  /** With viewing denied the support lists are never read: their lookups
      cannot fail the call. */
  lemma HiddenTicketIgnoresSupportLookups(db: ClaimLookups, t: Ticket, claimer: nat, self: nat,
                                          otherUsers: seq<nat>, standard: set<Permission>,
                                          buildOpener: (nat, TicketPermissions) -> Overwrite)
    requires db.settings.Ok? && !db.settings.value.supportCanView
    requires db.adminUsers.Ok? && db.adminRoles.Ok? && db.additional.Ok?
    ensures GenerateClaimedOverwrites(db, t, claimer, self, otherUsers, standard, buildOpener) ==
      Ok(Some(CantView(buildOpener(t.userId, db.additional.value), claimer, self, t.guildId,
                       db.adminUsers.value, db.adminRoles.value, standard)))
  {
  }

  /** With viewing allowed but typing denied, and every lookup answered,
      the result is the can't-type list over the support users and roles,
      followed by the panel's team users and roles when there is a panel. */
  lemma ReadOnlySupportGetsCantType(db: ClaimLookups, t: Ticket, claimer: nat, self: nat,
                                    otherUsers: seq<nat>, standard: set<Permission>,
                                    buildOpener: (nat, TicketPermissions) -> Overwrite)
    requires db.settings.Ok? && db.settings.value.supportCanView && !db.settings.value.supportCanType
    requires db.adminUsers.Ok? && db.adminRoles.Ok? && db.additional.Ok?
    requires db.supportUsers.Ok? && db.supportRoles.Ok?
    requires t.panelId.Some? ==> db.teamUsers.Ok? && db.teamRoles.Ok?
    ensures var users := db.supportUsers.value + (if t.panelId.Some? then db.teamUsers.value else []);
      var roles := db.supportRoles.value + (if t.panelId.Some? then db.teamRoles.value else []);
      GenerateClaimedOverwrites(db, t, claimer, self, otherUsers, standard, buildOpener) ==
        Ok(Some(CantType(buildOpener(t.userId, db.additional.value), claimer, self, t.guildId,
                         users, roles, db.adminUsers.value, db.adminRoles.value, standard)))
  {
  }

  /** The extra user ids never change the result. */
  lemma OtherUsersIgnored(db: ClaimLookups, t: Ticket, claimer: nat, self: nat,
                          a: seq<nat>, b: seq<nat>, standard: set<Permission>,
                          buildOpener: (nat, TicketPermissions) -> Overwrite)
    ensures GenerateClaimedOverwrites(db, t, claimer, self, a, standard, buildOpener)
            == GenerateClaimedOverwrites(db, t, claimer, self, b, standard, buildOpener)
  {
  }

  // ---------------------------------------------------------------------
  // ClaimTicket (lines 19-73)
  // ---------------------------------------------------------------------

  datatype Panel = Panel(panelId: nat, guildId: nat)

  /** The effects of a claim, in the order they happen. */
  datatype Effect =
    | ReplyClaimThread
    | RecordClaim(guildId: nat, ticketId: nat, userId: nat)
    | ModifyChannel(channelId: nat, name: string, overwrites: seq<Overwrite>)

  datatype ClaimResult = ClaimResult(effects: seq<Effect>, error: Option<string>)

  /** What a claim needs from outside: the panel lookup, the claim write,
      the generated overwrites, the channel-name builder (given the panel,
      or None) and the channel update. */
  datatype ClaimWorld = ClaimWorld(
    panel: Result<Panel>,
    record: Result<()>,
    overwrites: Result<Option<seq<Overwrite>>>,
    channelName: (Option<Panel>) -> Result<string>,
    channelUpdate: Result<()>)

  /** The claim succeeds exactly when the ticket has a channel and is a
      thread, or when the panel, the claim write, the overwrites and (when
      there are overwrites to apply) the name and the update all succeed. */
  function ClaimTicket(t: Ticket, userId: nat, w: ClaimWorld): (r: ClaimResult)
    ensures |r.effects| <= 2
    ensures var panel := if t.panelId.Some? && w.panel.Ok? && w.panel.value.guildId != 0 then Some(w.panel.value) else None;
      r.error.None? <==>
        t.channelId.Some? &&
        (t.isThread ||
         (!(t.panelId.Some? && w.panel.Err?) && w.record.Ok? && w.overwrites.Ok? &&
          (w.overwrites.value.Some? ==> w.channelName(panel).Ok? && w.channelUpdate.Ok?)))
  {
    if t.channelId.None? then ClaimResult([], Some("channel ID is nil"))
    else if t.isThread then ClaimResult([ReplyClaimThread], None)
    else if t.panelId.Some? && w.panel.Err? then ClaimResult([], Some(w.panel.error))
    else
      var panel := if t.panelId.Some? && w.panel.value.guildId != 0 then Some(w.panel.value) else None;
      var recorded := [RecordClaim(t.guildId, t.id, userId)];
      if w.record.Err? then ClaimResult([], Some(w.record.error))
      else match w.overwrites
        case Err(e) => ClaimResult(recorded, Some(e))
        case Ok(None) => ClaimResult(recorded, None)
        case Ok(Some(ows)) =>
          match w.channelName(panel)
          case Err(e) => ClaimResult(recorded, Some(e))
          case Ok(name) =>
            var modified := recorded + [ModifyChannel(t.channelId.value, name, ows)];
            if w.channelUpdate.Err? then ClaimResult(modified, Some(w.channelUpdate.error)) else ClaimResult(modified, None)
  }

  /** The guards and the order of a claim's effects. */
  lemma ClaimOrdering(t: Ticket, userId: nat, w: ClaimWorld)
    ensures t.channelId.None? ==> ClaimTicket(t, userId, w).error.Some? && ClaimTicket(t, userId, w).effects == []
    ensures t.channelId.Some? && t.isThread ==> ClaimTicket(t, userId, w) == ClaimResult([ReplyClaimThread], None)
    ensures var r := ClaimTicket(t, userId, w);
      forall i :: 0 <= i < |r.effects| && r.effects[i].ModifyChannel? ==>
        i == 1 && r.effects[0] == RecordClaim(t.guildId, t.id, userId) &&
        w.overwrites.Ok? && w.overwrites.value == Some(r.effects[i].overwrites)
    ensures (t.channelId.Some? && !t.isThread && !(t.panelId.Some? && w.panel.Err?) && w.record.Ok?) ==>
      ClaimTicket(t, userId, w).effects[0] == RecordClaim(t.guildId, t.id, userId)
  {
  }

  /** A panel that belongs to no guild names the channel as if there were
      no panel at all. */
  lemma GuildlessPanelCountsAsNone(t: Ticket, userId: nat, w: ClaimWorld, p: Panel)
    requires t.channelId.Some? && !t.isThread && t.panelId.Some? && w.panel == Ok(p) && p.guildId == 0
    requires w.record.Ok? && w.overwrites.Ok? && w.overwrites.value.Some? && w.channelName(None).Ok?
    ensures ClaimTicket(t, userId, w).effects[1].name == w.channelName(None).value
  {
  }
}
