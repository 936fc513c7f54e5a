/** The local mirror of a panel's inbound list, and the counts that a synchronization reports. */
module PanelMirror {
  import opened Options

  /** An inbound id is kept as text: the decimal form of a remote id, or text that an operator
      typed, of which all that matters is whether it reads as a positive safe integer. */
  datatype Key = Id(n: int) | Typed(text: string, readsPositive: bool)
  {
    predicate Positive() {
      match this
      case Id(n) => 0 < n <= 9007199254740991
      case Typed(_, readsPositive) => readsPositive
    }
  }

  datatype Remote = Remote(
    id: int, remark: string, tag: Option<string>, protocol: string, port: int, enabled: bool,
    expiryTime: Option<int>, compatible: bool)

  datatype Row = Row(
    serverId: nat, protocol: string, remark: Option<string>, port: int,
    isActive: bool, isRemotePresent: bool, isProvisionable: bool, isExcluded: bool, isClientCompatible: bool,
    notes: map<string, string>, mirrored: Option<(Option<string>, Option<int>)>)

  datatype Panel = Panel(active: bool, xui: bool, synced: Option<bool>)

  type Rows = map<(nat, Key), Row>

  predicate Eligible(panelEnabled: bool, key: Key, row: Row) {
    && panelEnabled && row.isRemotePresent && row.isActive && row.isProvisionable
    && !row.isExcluded && row.isClientCompatible && key.Positive()
  }

  /** What a user may be given: listed by the panel, switched on there and here, not excluded by the
      operator, usable by the clients, and under an id that is a positive safe integer. */
  predicate IsOffered(key: Key, row: Row) {
    && row.isRemotePresent && row.isActive && row.isProvisionable && row.isClientCompatible && !row.isExcluded
    && match key
       case Id(n) => n > 0 && n < 0x20_0000_0000_0000
       case Typed(_, readsPositive) => readsPositive
  }

  const PROTOCOLS := ["VMESS", "VLESS", "TROJAN", "SHADOWSOCKS", "WIREGUARD", "REALITY"]

  function Upper(s: string): string {
    seq(|s|, i requires 0 <= i < |s| => if 'a' <= s[i] <= 'z' then ((s[i] as int) - 32) as char else s[i])
  }

  function Protocol(s: string): string {
    if Upper(s) in PROTOCOLS then Upper(s) else "ANY"
  }

  function Remark(inbound: Remote): Option<string> {
    if inbound.remark != "" then Some(inbound.remark)
    else if inbound.tag.Some? && inbound.tag.value != "" then inbound.tag
    else None
  }

  /** The row that an upsert leaves: the operator's flags and notes are those it had. */
  function Upserted(current: Option<Row>, server: nat, inbound: Remote): Row {
    var base :=
      if current.Some? then current.value
      else Row(server, "", None, 0, false, false, true, false, false, map[], None);
    base.(protocol := Protocol(inbound.protocol), remark := Remark(inbound), port := inbound.port,
          isActive := inbound.enabled, isRemotePresent := true, isClientCompatible := inbound.compatible,
          mirrored := Some((inbound.tag, inbound.expiryTime)))
  }

  function At(rows: Rows, panel: nat, key: Key): Option<Row> {
    if (panel, key) in rows then Some(rows[(panel, key)]) else None
  }

  function Listed(remote: seq<Remote>): set<Key> {
    set r <- remote :: Id(r.id)
  }

  /** The last entry of the list with a given id. */
  function Last(remote: seq<Remote>, id: int): (r: Remote)
    requires Id(id) in Listed(remote)
    ensures r in remote && r.id == id
  {
    if remote[|remote| - 1].id == id then remote[|remote| - 1]
    else
      assert remote == remote[..|remote| - 1] + [remote[|remote| - 1]];
      Last(remote[..|remote| - 1], id)
  }

  function Gone(row: Row): Row {
    row.(isRemotePresent := false, isActive := false, isClientCompatible := false)
  }

  /** What the upserts leave at a key of the synchronized panel. */
  function Filled(was: Option<Row>, server: nat, remote: seq<Remote>, key: Key): Option<Row> {
    if key in Listed(remote) then Some(Upserted(was, server, Last(remote, key.n))) else was
  }

  /** What a synchronization leaves at a key of the synchronized panel. */
  function Mirrored(was: Option<Row>, server: nat, remote: seq<Remote>, key: Key): Option<Row> {
    if key !in Listed(remote) && was.Some? && was.value.isRemotePresent then Some(Gone(was.value))
    else Filled(was, server, remote, key)
  }

  /** `rows'` is `rows` after panel `panel` was synchronized with `remote`. */
  ghost predicate Synced(rows: Rows, rows': Rows, panel: nat, server: nat, remote: seq<Remote>) {
    && (forall q: nat, key: Key | q != panel :: At(rows', q, key) == At(rows, q, key))
    && (forall key: Key :: At(rows', panel, key) == Mirrored(At(rows, panel, key), server, remote, key))
  }

  datatype Counts = Counts(discovered: nat, created: nat, updated: nat, unavailable: nat, excluded: nat, eligible: nat)

  datatype Outcome = Done(counts: Counts) | PanelNotFound | NotEnabled | NoServer | RemoteFailed

  /** What a report asks of each remote entry. */
  datatype Question = IsNew | IsKnown | IsExcluded | WillBeEligible(panelEnabled: bool)

  predicate Holds(rows: Rows, panel: nat, q: Question, r: Remote) {
    var known := (panel, Id(r.id)) in rows;
    match q
    case IsNew => !known
    case IsKnown => known
    case IsExcluded => known && rows[(panel, Id(r.id))].isExcluded
    case WillBeEligible(enabled) => Eligible(enabled, Id(r.id), Upserted(At(rows, panel, Id(r.id)), 0, r))
  }

  /** The number of entries of which it holds, as `filter(...).length` counts them. */
  function Count(rows: Rows, panel: nat, q: Question, remote: seq<Remote>): nat {
    if remote == [] then 0
    else Count(rows, panel, q, remote[..|remote| - 1]) + if Holds(rows, panel, q, remote[|remote| - 1]) then 1 else 0
  }

  /** The rows of the panel that a synchronization turns unavailable. */
  function Missing(rows: Rows, panel: nat, remote: seq<Remote>): set<(nat, Key)> {
    set k <- rows.Keys | k.0 == panel && k.1 !in Listed(remote) && rows[k].isRemotePresent
  }

  function EligibleRows(rows: Rows, panel: nat): set<(nat, Key)> {
    set k <- rows.Keys | k.0 == panel && Eligible(true, k.1, rows[k])
  }

  function CountsOf(rows: Rows, panel: nat, remote: seq<Remote>): Counts {
    Counts(
      |remote|,
      Count(rows, panel, IsNew, remote),
      Count(rows, panel, IsKnown, remote),
      |Missing(rows, panel, remote)|,
      Count(rows, panel, IsExcluded, remote),
      Count(rows, panel, WillBeEligible(true), remote))
  }

  // ---- the services ----

  class PanelInboundsService {
    var rows: Rows
    var panels: map<nat, Panel>
    var servers: map<nat, nat>

    constructor (panels: map<nat, Panel>, servers: map<nat, nat>)
      ensures this.panels == panels && this.servers == servers && rows == map[]
    {
      this.panels, this.servers, rows := panels, servers, map[];
    }

    predicate Enabled(panel: nat)
      reads this
    {
      panel in panels && panels[panel].active && panels[panel].xui
    }

    /** `remote` is the answer of the panel, `None` when listing fails. */
    method PerformSync(panel: nat, remote: Option<seq<Remote>>) returns (out: Outcome)
      modifies this
      ensures servers == old(servers)
      ensures out.Done? <==>
        panel in old(panels) && old(panels)[panel].active && old(panels)[panel].xui && panel in servers && remote.Some?
      ensures out.Done? ==>
        && Synced(old(rows), rows, panel, servers[panel], remote.value)
        && out.counts == CountsOf(old(rows), panel, remote.value)
      ensures !out.Done? ==> rows == old(rows)
      ensures panels ==
        if out.Done? then old(panels)[panel := old(panels)[panel].(synced := Some(true))]
        else if out.RemoteFailed? && panel in old(panels) then
          old(panels)[panel := old(panels)[panel].(synced := Some(false))]
        else old(panels)
    {
      if panel !in panels {
        return PanelNotFound;
      }
      if !panels[panel].active || !panels[panel].xui {
        return NotEnabled;
      }
      if panel !in servers {
        return NoServer;
      }
      if remote.None? {
        panels := panels[panel := panels[panel].(synced := Some(false))];
        return RemoteFailed;
      }
      var known := rows;
      var list := remote.value;
      var i := 0;
      while i < |list|
        invariant 0 <= i <= |list|
        invariant panels == old(panels) && servers == old(servers)
        invariant forall q: nat, key: Key | q != panel :: At(rows, q, key) == At(known, q, key)
        invariant forall key: Key ::
          At(rows, panel, key) == Filled(At(known, panel, key), servers[panel], list[..i], key)
      {
        ListedSnoc(list, i);
        var key := Id(list[i].id);
        ghost var before := rows;
        rows := rows[(panel, key) := Upserted(At(rows, panel, key), servers[panel], list[i])];
        assert forall q: nat, k: Key | q != panel || k != key :: At(rows, q, k) == At(before, q, k);
        i := i + 1;
      }
      assert list[..|list|] == list;
      ghost var filled := rows;
      var unavailable := Missing(rows, panel, list);
      MissingBefore(known, rows, panel, servers[panel], list);
      rows := map k | k in rows :: if k in unavailable then Gone(rows[k]) else rows[k];
      forall key: Key ensures At(rows, panel, key) == Mirrored(At(known, panel, key), servers[panel], list, key) {
        assert At(filled, panel, key) == Filled(At(known, panel, key), servers[panel], list, key);
      }
      forall q: nat, key: Key | q != panel ensures At(rows, q, key) == At(known, q, key) {
        assert At(filled, q, key) == At(known, q, key);
      }
      panels := panels[panel := panels[panel].(synced := Some(true))];
      out := Done(CountsOf(known, panel, list).(unavailable := |unavailable|));
    }

    /** The rows eligible now; when the rows are those that a synchronization left, the number that it
        reported, if and only if every eligible entry was the last of its id. */
    method EligibleInbounds(panel: nat) returns (keys: set<(nat, Key)>)
      ensures keys == if Enabled(panel) then EligibleRows(rows, panel) else {}
      ensures forall k :: k in keys <==>
        && panel in panels && panels[panel].active && panels[panel].xui
        && k in rows && k.0 == panel && IsOffered(k.1, rows[k])
      ensures Enabled(panel) ==>
        forall before: Rows, server: nat, remote: seq<Remote> | Synced(before, rows, panel, server, remote) ::
          (CountsOf(before, panel, remote).eligible == |keys|) ==
          HoldsOnlyOfLast(before, panel, WillBeEligible(true), remote)
    {
      if panel !in panels || !panels[panel].active || !panels[panel].xui {
        return {};
      }
      keys := set k <- rows.Keys | k.0 == panel && Eligible(true, k.1, rows[k]);
      forall before: Rows, server: nat, remote: seq<Remote> | Synced(before, rows, panel, server, remote)
        ensures (CountsOf(before, panel, remote).eligible == |keys|) ==
          HoldsOnlyOfLast(before, panel, WillBeEligible(true), remote)
      {
        EligibleCountIff(before, rows, panel, server, remote);
      }
    }
  }

  /** The eligible count of `diagnoseXui`, which only reads. */
  function DiagnosedEligible(rows: Rows, panel: nat, active: bool, remote: seq<Remote>): nat {
    Count(rows, panel, WillBeEligible(active), remote)
  }

  lemma ListedSnoc(remote: seq<Remote>, i: nat)
    requires i < |remote|
    ensures Listed(remote[..i + 1]) == Listed(remote[..i]) + {Id(remote[i].id)}
    ensures forall id: int | Id(id) in Listed(remote[..i + 1]) ::
      Last(remote[..i + 1], id) == if id == remote[i].id then remote[i] else Last(remote[..i], id)
  {
    assert remote[..i + 1] == remote[..i] + [remote[i]];
    assert remote[..i + 1][..i] == remote[..i];
  }

  lemma MissingBefore(known: Rows, filled: Rows, panel: nat, server: nat, remote: seq<Remote>)
    requires forall key: Key :: At(filled, panel, key) == Filled(At(known, panel, key), server, remote, key)
    ensures Missing(filled, panel, remote) == Missing(known, panel, remote)
  {
    forall k: (nat, Key)
      ensures k in Missing(filled, panel, remote) <==> k in Missing(known, panel, remote)
    {
      if k.0 == panel && k.1 !in Listed(remote) {
        assert At(filled, panel, k.1) == At(known, panel, k.1);
      }
    }
  }

  // ---- what a synchronization guarantees ----

  /** A row of the server that no operator has changed: it may be provisioned and is not excluded. */
  predicate IsUntouched(row: Row, server: nat) {
    row.serverId == server && row.isProvisionable && !row.isExcluded && row.notes == map[]
  }

  /** What belongs to the operator is the same in both rows. */
  predicate SameFlags(a: Row, b: Row) {
    && a.isProvisionable == b.isProvisionable && a.isExcluded == b.isExcluded
    && a.serverId == b.serverId && a.notes == b.notes
  }

  predicate SameLetter(c: char, capital: char) {
    c == capital || ('A' <= capital <= 'Z' && c as int == capital as int + 32)
  }

  /** The same text but for the case of ASCII letters; `capital` has no small ones. */
  predicate SameIgnoringCase(s: string, capital: string) {
    |s| == |capital| && forall i | 0 <= i < |s| :: SameLetter(s[i], capital[i])
  }

  /** The protocol known by that name, in capitals, or ANY if none is. */
  predicate IsProtocolOf(protocol: string, name: string) {
    if exists known <- PROTOCOLS :: SameIgnoringCase(name, known) then
      protocol in PROTOCOLS && SameIgnoringCase(name, protocol)
    else protocol == "ANY"
  }

  /** The remark, or the tag if that is empty, or nothing if both are. */
  predicate IsRemarkOf(remark: Option<string>, r: Remote) {
    if r.remark != "" then remark == Some(r.remark)
    else remark == if r.tag == Some("") then None else r.tag
  }

  /** The row shows what the remote entry says. */
  predicate Shows(row: Row, r: Remote) {
    && IsProtocolOf(row.protocol, r.protocol) && IsRemarkOf(row.remark, r) && row.port == r.port
    && row.isActive == r.enabled && row.isClientCompatible == r.compatible
    && row.mirrored == Some((r.tag, r.expiryTime))
  }

  predicate IsCapital(s: string) {
    forall i | 0 <= i < |s| :: !('a' <= s[i] <= 'z')
  }

  lemma UpperIff(s: string, capital: string)
    requires IsCapital(capital)
    ensures Upper(s) == capital <==> SameIgnoringCase(s, capital)
  {
    if SameIgnoringCase(s, capital) {
      forall i | 0 <= i < |s| ensures Upper(s)[i] == capital[i] {
        assert SameLetter(s[i], capital[i]);
      }
    }
    if Upper(s) == capital {
      forall i | 0 <= i < |s| ensures SameLetter(s[i], capital[i]) {
        assert Upper(s)[i] == capital[i];
      }
    }
  }

  lemma ProtocolIs(name: string)
    ensures IsProtocolOf(Protocol(name), name)
  {
    forall known <- PROTOCOLS ensures Upper(name) == known <==> SameIgnoringCase(name, known) {
      UpperIff(name, known);
    }
  }

  /** The rows marked remote-present are exactly those of the remote list and show its last entry of
      their id; a row that has gone is inactive; every row that was there stays, with the operator's
      flags and notes, and a new one may be provisioned; other panels are untouched. */
  lemma MirrorAgrees(rows: Rows, rows': Rows, panel: nat, server: nat, remote: seq<Remote>)
    requires Synced(rows, rows', panel, server, remote)
    ensures forall key: Key ::
      ((panel, key) in rows' && rows'[(panel, key)].isRemotePresent) <==> key in Listed(remote)
    ensures forall key <- Listed(remote) :: (panel, key) in rows' && Shows(rows'[(panel, key)], Last(remote, key.n))
    ensures forall k <- rows :: k.0 == panel && k.1 !in Listed(remote) && rows[k].isRemotePresent ==>
      k in rows' && !rows'[k].isActive && !rows'[k].isClientCompatible
    ensures forall key <- Listed(remote) :: (panel, key) !in rows ==>
      (panel, key) in rows' && IsUntouched(rows'[(panel, key)], server)
    ensures forall k <- rows :: k in rows' && SameFlags(rows[k], rows'[k])
    ensures forall q: nat, key: Key | q != panel :: At(rows', q, key) == At(rows, q, key)
  {
    forall key: Key
      ensures ((panel, key) in rows' && rows'[(panel, key)].isRemotePresent) <==> key in Listed(remote)
      ensures key in Listed(remote) ==> (panel, key) in rows' && Shows(rows'[(panel, key)], Last(remote, key.n))
      ensures key in Listed(remote) && (panel, key) !in rows ==>
        (panel, key) in rows' && IsUntouched(rows'[(panel, key)], server)
    {
      if key in Listed(remote) {
        ProtocolIs(Last(remote, key.n).protocol);
      }
      assert At(rows', panel, key) == Mirrored(At(rows, panel, key), server, remote, key);
    }
    forall k <- rows
      ensures k in rows' && SameFlags(rows[k], rows'[k])
      ensures k.0 == panel && k.1 !in Listed(remote) && rows[k].isRemotePresent ==>
        !rows'[k].isActive && !rows'[k].isClientCompatible
    {
      if k.0 == panel {
        assert At(rows', panel, k.1) == Mirrored(At(rows, panel, k.1), server, remote, k.1);
      } else {
        assert At(rows', k.0, k.1) == At(rows, k.0, k.1);
      }
    }
  }

  lemma {:induction false} CountNone(rows: Rows, panel: nat, q: Question, remote: seq<Remote>)
    requires forall r <- remote :: !Holds(rows, panel, q, r)
    ensures Count(rows, panel, q, remote) == 0
  {
    if remote != [] {
      CountNone(rows, panel, q, remote[..|remote| - 1]);
    }
  }

  function Held(rows: Rows, panel: nat, q: Question, remote: seq<Remote>): set<nat> {
    set i: nat | i < |remote| && Holds(rows, panel, q, remote[i])
  }

  lemma HeldSnoc(rows: Rows, panel: nat, q: Question, remote: seq<Remote>, n: nat)
    requires |remote| == n + 1
    ensures Held(rows, panel, q, remote) ==
      if Holds(rows, panel, q, remote[n]) then Held(rows, panel, q, remote[..n]) + {n}
      else Held(rows, panel, q, remote[..n])
  {
    forall i: nat | i != n
      ensures i in Held(rows, panel, q, remote) <==> i in Held(rows, panel, q, remote[..n])
    {
      assert i < n ==> remote[i] == remote[..n][i];
    }
    assert n !in Held(rows, panel, q, remote[..n]);
  }

  lemma {:induction false} CountIsNumber(rows: Rows, panel: nat, q: Question, remote: seq<Remote>)
    ensures Count(rows, panel, q, remote) == |Held(rows, panel, q, remote)|
  {
    if remote != [] {
      var n := |remote| - 1;
      CountIsNumber(rows, panel, q, remote[..n]);
      HeldSnoc(rows, panel, q, remote, n);
    }
  }

  /** No operator has kept the key from being used. */
  predicate MayBeUsed(rows: Rows, panel: nat, key: Key) {
    (panel, key) in rows ==> rows[(panel, key)].isProvisionable && !rows[(panel, key)].isExcluded
  }

  /** The entry is on, usable by the clients, has an id that is a positive safe integer, and may be used. */
  predicate IsEligibleEntry(rows: Rows, panel: nat, r: Remote) {
    r.enabled && r.compatible && 0 < r.id < 0x20_0000_0000_0000 && MayBeUsed(rows, panel, Id(r.id))
  }

  function NewEntries(rows: Rows, panel: nat, remote: seq<Remote>): set<nat> {
    set i: nat | i < |remote| && (panel, Id(remote[i].id)) !in rows
  }

  function KnownEntries(rows: Rows, panel: nat, remote: seq<Remote>): set<nat> {
    set i: nat | i < |remote| && (panel, Id(remote[i].id)) in rows
  }

  function ExcludedEntries(rows: Rows, panel: nat, remote: seq<Remote>): set<nat> {
    set i: nat | i < |remote| && (panel, Id(remote[i].id)) in rows && rows[(panel, Id(remote[i].id))].isExcluded
  }

  function EligibleEntries(rows: Rows, panel: nat, remote: seq<Remote>): set<nat> {
    set i: nat | i < |remote| && IsEligibleEntry(rows, panel, remote[i])
  }

  /** The rows of entries that went. */
  function GoneRows(rows: Rows, panel: nat, remote: seq<Remote>): set<(nat, Key)> {
    set k <- rows | k.0 == panel && rows[k].isRemotePresent && forall i | 0 <= i < |remote| :: k.1 != Id(remote[i].id)
  }

  /** What a report counts: the entries without a row before, those with one, those whose row the
      operator excluded, those eligible, and the rows of entries that went. */
  lemma CountsAre(rows: Rows, panel: nat, remote: seq<Remote>)
    ensures var counts := CountsOf(rows, panel, remote);
            && counts.discovered == |remote|
            && counts.created == |NewEntries(rows, panel, remote)|
            && counts.updated == |KnownEntries(rows, panel, remote)|
            && counts.excluded == |ExcludedEntries(rows, panel, remote)|
            && counts.eligible == |EligibleEntries(rows, panel, remote)|
            && counts.unavailable == |GoneRows(rows, panel, remote)|
  {
    CountIsNumber(rows, panel, IsNew, remote);
    assert Held(rows, panel, IsNew, remote) == NewEntries(rows, panel, remote);
    CountIsNumber(rows, panel, IsKnown, remote);
    assert Held(rows, panel, IsKnown, remote) == KnownEntries(rows, panel, remote);
    CountIsNumber(rows, panel, IsExcluded, remote);
    assert Held(rows, panel, IsExcluded, remote) == ExcludedEntries(rows, panel, remote);
    CountIsNumber(rows, panel, WillBeEligible(true), remote);
    assert Held(rows, panel, WillBeEligible(true), remote) == EligibleEntries(rows, panel, remote);
    MissingAreGone(rows, panel, remote);
  }

  lemma MissingAreGone(rows: Rows, panel: nat, remote: seq<Remote>)
    ensures Missing(rows, panel, remote) == GoneRows(rows, panel, remote)
  {
    assert forall i | 0 <= i < |remote| :: remote[i] in remote;
  }

  /** Every entry is either created or updated. */
  lemma {:induction false} CreatedOrUpdated(rows: Rows, panel: nat, remote: seq<Remote>)
    ensures CountsOf(rows, panel, remote).created + CountsOf(rows, panel, remote).updated == |remote|
  {
    if remote != [] {
      CreatedOrUpdated(rows, panel, remote[..|remote| - 1]);
    }
  }

  /** Synchronizing again with the same list changes nothing, creates nothing and finds nothing
      newly unavailable. */
  lemma SyncIsIdempotent(rows: Rows, rows1: Rows, rows2: Rows, panel: nat, server: nat, remote: seq<Remote>)
    requires Synced(rows, rows1, panel, server, remote) && Synced(rows1, rows2, panel, server, remote)
    ensures rows2 == rows1
    ensures CountsOf(rows1, panel, remote).created == 0 && CountsOf(rows1, panel, remote).unavailable == 0
  {
    forall k: (nat, Key) ensures At(rows2, k.0, k.1) == At(rows1, k.0, k.1) {
      if k.0 == panel {
        assert At(rows1, panel, k.1) == Mirrored(At(rows, panel, k.1), server, remote, k.1);
        assert At(rows2, panel, k.1) == Mirrored(At(rows1, panel, k.1), server, remote, k.1);
      }
    }
    SameRows(rows1, rows2);
    MirrorAgrees(rows, rows1, panel, server, remote);
    forall r <- remote ensures !Holds(rows1, panel, IsNew, r) {
      assert Id(r.id) in Listed(remote);
    }
    CountNone(rows1, panel, IsNew, remote);
    assert Missing(rows1, panel, remote) == {};
  }

  lemma SameRows(a: Rows, b: Rows)
    requires forall k: (nat, Key) :: At(a, k.0, k.1) == At(b, k.0, k.1)
    ensures a == b
  {
    forall k: (nat, Key) ensures k in a <==> k in b {
      assert k == (k.0, k.1) && At(a, k.0, k.1) == At(b, k.0, k.1);
    }
    forall k | k in a ensures a[k] == b[k] {
      assert k == (k.0, k.1) && At(a, k.0, k.1) == At(b, k.0, k.1);
    }
  }

  // ---- the eligible count ----

  predicate Distinct(remote: seq<Remote>) {
    forall i, j | 0 <= i < j < |remote| :: remote[i].id != remote[j].id
  }

  /** A later entry has the id of the first one. */
  predicate IsRepeated(remote: seq<Remote>)
    requires remote != []
  {
    Id(remote[0].id) in Listed(remote[1..])
  }

  /** The keys whose last entry will be eligible. */
  function LastEligible(rows: Rows, panel: nat, q: Question, remote: seq<Remote>): set<(nat, Key)> {
    if remote == [] then {}
    else
      LastEligible(rows, panel, q, remote[1..]) +
      if !IsRepeated(remote) && Holds(rows, panel, q, remote[0]) then {(panel, Id(remote[0].id))} else {}
  }

  /** The number of entries of which it holds although a later one has their id. */
  function Repeats(rows: Rows, panel: nat, q: Question, remote: seq<Remote>): nat {
    if remote == [] then 0
    else
      Repeats(rows, panel, q, remote[1..]) + if IsRepeated(remote) && Holds(rows, panel, q, remote[0]) then 1 else 0
  }

  /** Every entry of which it holds is the last one of its id. */
  predicate HoldsOnlyOfLast(rows: Rows, panel: nat, q: Question, remote: seq<Remote>) {
    forall i, j | 0 <= i < j < |remote| && remote[i].id == remote[j].id :: !Holds(rows, panel, q, remote[i])
  }

  lemma {:induction false} CountCons(rows: Rows, panel: nat, q: Question, remote: seq<Remote>)
    requires remote != []
    ensures Count(rows, panel, q, remote) ==
      Count(rows, panel, q, remote[1..]) + if Holds(rows, panel, q, remote[0]) then 1 else 0
  {
    if |remote| == 1 {
      assert remote[..0] == [] && remote[1..] == [];
    } else {
      var init := remote[..|remote| - 1];
      CountCons(rows, panel, q, init);
      assert init[1..] == remote[1..][..|remote[1..]| - 1];
    }
  }

  lemma ListedCons(remote: seq<Remote>)
    requires remote != []
    ensures Listed(remote) == {Id(remote[0].id)} + Listed(remote[1..])
    ensures forall id: int | Id(id) in Listed(remote) ::
      Last(remote, id) == if Id(id) in Listed(remote[1..]) then Last(remote[1..], id) else remote[0]
  {
    assert remote == [remote[0]] + remote[1..];
    forall id: int | Id(id) in Listed(remote)
      ensures Last(remote, id) == if Id(id) in Listed(remote[1..]) then Last(remote[1..], id) else remote[0]
    {
      LastCons(remote, id);
    }
  }

  lemma {:induction false} LastCons(remote: seq<Remote>, id: int)
    requires remote != [] && Id(id) in Listed(remote)
    ensures Last(remote, id) == if Id(id) in Listed(remote[1..]) then Last(remote[1..], id) else remote[0]
  {
    if remote[|remote| - 1].id != id {
      var init := remote[..|remote| - 1];
      assert remote == init + [remote[|remote| - 1]];
      assert init[1..] == remote[1..][..|remote[1..]| - 1];
      assert remote[1..] == init[1..] + [remote[|remote| - 1]];
      LastCons(init, id);
    } else if |remote| > 1 {
      assert remote[1..][|remote| - 2] == remote[|remote| - 1];
    }
  }

  lemma {:induction false} LastEligibleAre(rows: Rows, panel: nat, q: Question, remote: seq<Remote>, k: (nat, Key))
    ensures k in LastEligible(rows, panel, q, remote) <==>
      && k.0 == panel && k.1.Id? && k.1 in Listed(remote) && Holds(rows, panel, q, Last(remote, k.1.n))
  {
    if remote != [] {
      LastEligibleAre(rows, panel, q, remote[1..], k);
      ListedCons(remote);
    }
  }

  /** Counting entries counts the keys whose last entry is eligible, and the repeats. */
  lemma {:induction false} CountIsKeysAndRepeats(rows: Rows, panel: nat, q: Question, remote: seq<Remote>)
    ensures Count(rows, panel, q, remote) == |LastEligible(rows, panel, q, remote)| + Repeats(rows, panel, q, remote)
  {
    if remote != [] {
      CountCons(rows, panel, q, remote);
      CountIsKeysAndRepeats(rows, panel, q, remote[1..]);
      LastEligibleAre(rows, panel, q, remote[1..], (panel, Id(remote[0].id)));
    }
  }

  lemma RepeatedIff(remote: seq<Remote>)
    requires remote != []
    ensures IsRepeated(remote) <==> exists j | 0 < j < |remote| :: remote[j].id == remote[0].id
  {
    var rest := remote[1..];
    if IsRepeated(remote) {
      var r :| r in rest && r.id == remote[0].id;
      var j :| 0 <= j < |rest| && rest[j] == r;
      assert remote[j + 1].id == remote[0].id;
    }
    if j :| 0 < j < |remote| && remote[j].id == remote[0].id {
      assert remote[j] == rest[j - 1];
    }
  }

  lemma HoldsOnlyCons(rows: Rows, panel: nat, q: Question, remote: seq<Remote>)
    requires remote != []
    ensures HoldsOnlyOfLast(rows, panel, q, remote) <==>
      HoldsOnlyOfLast(rows, panel, q, remote[1..]) && (IsRepeated(remote) ==> !Holds(rows, panel, q, remote[0]))
  {
    var rest := remote[1..];
    RepeatedIff(remote);
    if HoldsOnlyOfLast(rows, panel, q, remote) {
      forall i, j | 0 <= i < j < |rest| && rest[i].id == rest[j].id ensures !Holds(rows, panel, q, rest[i]) {
        assert remote[i + 1] == rest[i] && remote[j + 1] == rest[j];
      }
    }
    if HoldsOnlyOfLast(rows, panel, q, rest) && (IsRepeated(remote) ==> !Holds(rows, panel, q, remote[0])) {
      forall i, j | 0 <= i < j < |remote| && remote[i].id == remote[j].id ensures !Holds(rows, panel, q, remote[i]) {
        if i > 0 {
          assert remote[i] == rest[i - 1] && remote[j] == rest[j - 1];
        }
      }
    }
  }

  lemma {:induction false} NoRepeatsIff(rows: Rows, panel: nat, q: Question, remote: seq<Remote>)
    ensures Repeats(rows, panel, q, remote) == 0 <==> HoldsOnlyOfLast(rows, panel, q, remote)
  {
    if remote != [] {
      NoRepeatsIff(rows, panel, q, remote[1..]);
      HoldsOnlyCons(rows, panel, q, remote);
    }
  }

  /** The rows eligible after a synchronization are those whose last entry was counted. */
  lemma EligibleRowsAre(rows: Rows, rows': Rows, panel: nat, server: nat, remote: seq<Remote>)
    requires Synced(rows, rows', panel, server, remote)
    ensures EligibleRows(rows', panel) == LastEligible(rows, panel, WillBeEligible(true), remote)
    ensures EligibleRows(rows', panel) == LastEligible(rows', panel, WillBeEligible(true), remote)
  {
    MirrorAgrees(rows, rows', panel, server, remote);
    forall k: (nat, Key)
      ensures k in EligibleRows(rows', panel) <==> k in LastEligible(rows, panel, WillBeEligible(true), remote)
      ensures k in EligibleRows(rows', panel) <==> k in LastEligible(rows', panel, WillBeEligible(true), remote)
    {
      LastEligibleAre(rows, panel, WillBeEligible(true), remote, k);
      LastEligibleAre(rows', panel, WillBeEligible(true), remote, k);
      if k.0 == panel {
        assert At(rows', panel, k.1) == Mirrored(At(rows, panel, k.1), server, remote, k.1);
      }
    }
  }

  /** For every list, the reported eligible count is the number of inbounds that a later query finds
      eligible, and the eligible entries that a later one of the same id repeats; so the two agree if
      and only if every eligible entry is the last of its id. A diagnosis of the active panel predicts
      the reported count. */
  lemma EligibleCountIff(rows: Rows, rows': Rows, panel: nat, server: nat, remote: seq<Remote>)
    requires Synced(rows, rows', panel, server, remote)
    ensures var counted := CountsOf(rows, panel, remote).eligible;
            && counted == |EligibleRows(rows', panel)| + Repeats(rows, panel, WillBeEligible(true), remote)
            && (counted == |EligibleRows(rows', panel)| <==> HoldsOnlyOfLast(rows, panel, WillBeEligible(true), remote))
            && DiagnosedEligible(rows, panel, true, remote) == counted
            && DiagnosedEligible(rows', panel, true, remote) == counted
            && DiagnosedEligible(rows, panel, false, remote) == 0
  {
    CountIsKeysAndRepeats(rows, panel, WillBeEligible(true), remote);
    NoRepeatsIff(rows, panel, WillBeEligible(true), remote);
    EligibleRowsAre(rows, rows', panel, server, remote);
    SameCountAfter(rows, rows', panel, server, remote, remote);
    CountNone(rows, panel, WillBeEligible(false), remote);
  }

  /** Synchronizing does not change what is counted. */
  lemma {:induction false} SameCountAfter(
    rows: Rows, rows': Rows, panel: nat, server: nat, remote: seq<Remote>, part: seq<Remote>)
    requires Synced(rows, rows', panel, server, remote) && forall r <- part :: r in remote
    ensures Count(rows', panel, WillBeEligible(true), part) == Count(rows, panel, WillBeEligible(true), part)
  {
    if part != [] {
      var r := part[|part| - 1];
      SameCountAfter(rows, rows', panel, server, remote, part[..|part| - 1]);
      assert At(rows', panel, Id(r.id)) == Mirrored(At(rows, panel, Id(r.id)), server, remote, Id(r.id));
    }
  }

  /** In particular they agree for lists without duplicate ids. */
  lemma EligibleCountIsTrue(rows: Rows, rows': Rows, panel: nat, server: nat, remote: seq<Remote>)
    requires Synced(rows, rows', panel, server, remote) && Distinct(remote)
    ensures CountsOf(rows, panel, remote).eligible == |EligibleRows(rows', panel)|
    ensures DiagnosedEligible(rows, panel, true, remote) == |EligibleRows(rows', panel)|
    ensures DiagnosedEligible(rows', panel, true, remote) == |EligibleRows(rows', panel)|
    ensures DiagnosedEligible(rows, panel, false, remote) == 0
  {
    EligibleCountIff(rows, rows', panel, server, remote);
  }

  /** A list on which they disagree: one id twice, and both entries eligible. */
  lemma DuplicatesAreCountedTwice(panel: nat, rows': Rows)
    requires var r := Remote(7, "", None, "vless", 443, true, None, true);
             Synced(map[], rows', panel, 0, [r, r])
    ensures var r := Remote(7, "", None, "vless", 443, true, None, true);
            CountsOf(map[], panel, [r, r]).eligible == 2 && |EligibleRows(rows', panel)| <= 1
  {
    var r := Remote(7, "", None, "vless", 443, true, None, true);
    assert [r, r][..1] == [r] && [r][..0] == [];
    assert Holds(map[], panel, WillBeEligible(true), r);
    assert Count(map[], panel, WillBeEligible(true), [r]) == 1;
    MirrorAgrees(map[], rows', panel, 0, [r, r]);
    forall k | k in EligibleRows(rows', panel) ensures k == (panel, Id(7)) {
      assert k.1 in Listed([r, r]);
    }
    assert EligibleRows(rows', panel) <= {(panel, Id(7))};
    AtMostOne(EligibleRows(rows', panel), (panel, Id(7)));
  }

  lemma AtMostOne(s: set<(nat, Key)>, k: (nat, Key))
    requires s <= {k}
    ensures |s| <= 1
  {
    assert s == {} || s == {k};
  }
}
