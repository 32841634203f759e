/**
 * The status tracker: the last status document it cared about (`stats`)
 * and the table of watched components (`insightsComps`), reconciled
 * against every freshly fetched status document, and the replies of the
 * timer and of the status, components and last-incident queries.
 */
module StatusTracker {
  import opened Options
  import opened StatusTypes
  import opened ComponentTable
  import opened Presenter

  /** The configured component ids (`COMP_IDS`) and group id (`GROUP_ID`,
      None when unset). */
  datatype WatchSet = WatchSet(compIds: seq<string>, groupId: Option<string>)

  /** A component is watched when its id is configured or its group id
      equals the configured one. The comparison is JavaScript's loose `==`,
      under which a `null` group id equals an unset group id: Option
      equality gives the same answer. */
  predicate Watched(w: WatchSet, c: Component) {
    c.id in w.compIds || c.groupId == w.groupId
  }

  /** A stored baseline always has a first incident to compare against. */
  predicate BaselineOk(baseline: Option<Snapshot>) {
    baseline.Some? ==> |baseline.value.incidents| > 0
  }

  /** An incident is considered when there is no baseline yet, or when it
      was updated strictly after the baseline's first incident. */
  predicate Qualifies(baseline: Option<Snapshot>, incident: Incident)
    requires BaselineOk(baseline)
  {
    baseline.None? || incident.updatedAt > baseline.value.incidents[0].updatedAt
  }

  /** The watched components of `cs`, in order. */
  function WatchedOf(w: WatchSet, cs: seq<Component>): seq<Component> {
    if cs == [] then []
    else WatchedOf(w, cs[..|cs| - 1]) + (if Watched(w, cs[|cs| - 1]) then [cs[|cs| - 1]] else [])
  }

  /** The components one pass writes into the table, in the order it writes
      them: the watched components of each considered incident. */
  function Written(w: WatchSet, baseline: Option<Snapshot>, incidents: seq<Incident>): seq<Component>
    requires BaselineOk(baseline)
  {
    if incidents == [] then []
    else
      var last := incidents[|incidents| - 1];
      Written(w, baseline, incidents[..|incidents| - 1])
        + (if Qualifies(baseline, last) then WatchedOf(w, last.components) else [])
  }

  lemma {:induction false} WatchedOfMembers(w: WatchSet, cs: seq<Component>)
    ensures forall c :: c in WatchedOf(w, cs) <==> c in cs && Watched(w, c)
  {
    if cs != [] {
      var init := cs[..|cs| - 1];
      WatchedOfMembers(w, init);
      assert cs == init + [cs[|cs| - 1]];
    }
  }

  /** Every written component comes from a considered incident that lists it. */
  lemma {:induction false} WrittenSource(w: WatchSet, baseline: Option<Snapshot>, incidents: seq<Incident>, c: Component)
      returns (i: nat)
    requires BaselineOk(baseline) && c in Written(w, baseline, incidents)
    ensures i < |incidents| && Qualifies(baseline, incidents[i]) && c in incidents[i].components && Watched(w, c)
  {
    var n := |incidents| - 1;
    var init := incidents[..n];
    var tail := if Qualifies(baseline, incidents[n]) then WatchedOf(w, incidents[n].components) else [];
    assert Written(w, baseline, incidents) == Written(w, baseline, init) + tail;
    if c in Written(w, baseline, init) {
      i := WrittenSource(w, baseline, init, c);
      assert incidents[i] == init[i];
    } else {
      WatchedOfMembers(w, incidents[n].components);
      i := n;
    }
  }

  /** Every watched component of a considered incident is written. */
  lemma {:induction false} WrittenComplete(w: WatchSet, baseline: Option<Snapshot>, incidents: seq<Incident>, c: Component, i: nat)
    requires BaselineOk(baseline) && i < |incidents|
    requires Qualifies(baseline, incidents[i]) && c in incidents[i].components && Watched(w, c)
    ensures c in Written(w, baseline, incidents)
  {
    var n := |incidents| - 1;
    var init := incidents[..n];
    var tail := if Qualifies(baseline, incidents[n]) then WatchedOf(w, incidents[n].components) else [];
    assert Written(w, baseline, incidents) == Written(w, baseline, init) + tail;
    if i < n {
      assert init[i] == incidents[i];
      WrittenComplete(w, baseline, init, c, i);
    } else {
      WatchedOfMembers(w, incidents[n].components);
    }
  }

  /** A component is written exactly when it is a watched component of a
      considered incident. */
  lemma WrittenMembers(w: WatchSet, baseline: Option<Snapshot>, incidents: seq<Incident>)
    requires BaselineOk(baseline)
    ensures forall c :: c in Written(w, baseline, incidents) <==>
      exists i | 0 <= i < |incidents| :: Qualifies(baseline, incidents[i]) && c in incidents[i].components && Watched(w, c)
  {
    forall c
      ensures c in Written(w, baseline, incidents) <==>
        exists i | 0 <= i < |incidents| :: Qualifies(baseline, incidents[i]) && c in incidents[i].components && Watched(w, c)
    {
      if c in Written(w, baseline, incidents) {
        var i := WrittenSource(w, baseline, incidents, c);
      }
      if exists i | 0 <= i < |incidents| :: Qualifies(baseline, incidents[i]) && c in incidents[i].components && Watched(w, c) {
        var i :| 0 <= i < |incidents| && Qualifies(baseline, incidents[i]) && c in incidents[i].components && Watched(w, c);
        WrittenComplete(w, baseline, incidents, c, i);
      }
    }
  }

  /** A pass cares exactly when some considered incident lists a watched
      component. */
  lemma CareIff(w: WatchSet, baseline: Option<Snapshot>, incidents: seq<Incident>)
    requires BaselineOk(baseline)
    ensures Written(w, baseline, incidents) != [] <==>
      exists i, j | 0 <= i < |incidents| && 0 <= j < |incidents[i].components| ::
        Qualifies(baseline, incidents[i]) && Watched(w, incidents[i].components[j])
  {
    var ws := Written(w, baseline, incidents);
    WrittenMembers(w, baseline, incidents);
    if ws != [] {
      assert ws[0] in ws;
    }
  }

  /** Caring needs an incident, so a baseline the tracker stores is never empty. */
  lemma CareNeedsIncident(w: WatchSet, baseline: Option<Snapshot>, incidents: seq<Incident>)
    requires BaselineOk(baseline)
    requires Written(w, baseline, incidents) != []
    ensures |incidents| > 0
  {
  }

  /** On a cold start every incident is considered. */
  lemma ColdStart(w: WatchSet, incidents: seq<Incident>)
    ensures Written(w, None, incidents) != [] <==>
      exists i, j | 0 <= i < |incidents| && 0 <= j < |incidents[i].components| :: Watched(w, incidents[i].components[j])
  {
    CareIff(w, None, incidents);
  }

  /** Polling again a document the tracker already stored cares again
      exactly when one of its incidents with a watched component is newer
      than its first incident. */
  lemma Repoll(w: WatchSet, s: Snapshot)
    requires |s.incidents| > 0
    ensures Written(w, Some(s), s.incidents) != [] <==>
      exists i, j | 0 <= i < |s.incidents| && 0 <= j < |s.incidents[i].components| ::
        s.incidents[i].updatedAt > s.incidents[0].updatedAt && Watched(w, s.incidents[i].components[j])
  {
    CareIff(w, Some(s), s.incidents);
  }

  /** A key that no watched component of a considered incident carries keeps
      its entry (or stays absent). */
  lemma PassKeepsOtherEntries(w: WatchSet, baseline: Option<Snapshot>, incidents: seq<Incident>, t: Table, k: string)
    requires BaselineOk(baseline)
    requires forall i, c | 0 <= i < |incidents| && c in incidents[i].components ::
      Qualifies(baseline, incidents[i]) && Watched(w, c) ==> c.id != k
    ensures Get(PutAll(t, Written(w, baseline, incidents)), k) == Get(t, k)
  {
    var ws := Written(w, baseline, incidents);
    WrittenMembers(w, baseline, incidents);
    forall p | 0 <= p < |ws|
      ensures ws[p].id != k
    {
      assert ws[p] in ws;
      var i :| 0 <= i < |incidents| && Qualifies(baseline, incidents[i]) && ws[p] in incidents[i].components && Watched(w, ws[p]);
    }
    LastWithIdIsLast(ws, k);
    PutAllGet(t, ws, k);
  }

  /** No key is removed, and the old keys keep their order. */
  lemma PassKeepsKeys(w: WatchSet, baseline: Option<Snapshot>, incidents: seq<Incident>, t: Table, k: string)
    requires BaselineOk(baseline)
    ensures k in t.entries ==> k in PutAll(t, Written(w, baseline, incidents)).entries
    ensures |t.keys| <= |PutAll(t, Written(w, baseline, incidents)).keys|
    ensures PutAll(t, Written(w, baseline, incidents)).keys[..|t.keys|] == t.keys
  {
    var ws := Written(w, baseline, incidents);
    PutAllGet(t, ws, k);
    PutAllKeepsOrder(t, ws);
  }

  /** A later considered incident overwrites an earlier one: when incident
      `j` writes key `k` and no later considered incident does, the table
      holds incident `j`'s last watched component with that id, whatever
      its timestamp. */
  lemma {:induction false} LaterIncidentWins(w: WatchSet, baseline: Option<Snapshot>, incidents: seq<Incident>, t: Table, j: nat, k: string)
    requires BaselineOk(baseline)
    requires j < |incidents| && Qualifies(baseline, incidents[j])
    requires LastWithId(WatchedOf(w, incidents[j].components), k).Some?
    requires forall i | j < i < |incidents| && Qualifies(baseline, incidents[i]) ::
      LastWithId(WatchedOf(w, incidents[i].components), k).None?
    ensures Get(PutAll(t, Written(w, baseline, incidents)), k) == LastWithId(WatchedOf(w, incidents[j].components), k)
  {
    var ws := Written(w, baseline, incidents);
    PutAllGet(t, ws, k);
    WrittenLast(w, baseline, incidents, j, k);
  }

  lemma {:induction false} WrittenLast(w: WatchSet, baseline: Option<Snapshot>, incidents: seq<Incident>, j: nat, k: string)
    requires BaselineOk(baseline)
    requires j < |incidents| && Qualifies(baseline, incidents[j])
    requires LastWithId(WatchedOf(w, incidents[j].components), k).Some?
    requires forall i | j < i < |incidents| && Qualifies(baseline, incidents[i]) ::
      LastWithId(WatchedOf(w, incidents[i].components), k).None?
    ensures LastWithId(Written(w, baseline, incidents), k) == LastWithId(WatchedOf(w, incidents[j].components), k)
  {
    var n := |incidents| - 1;
    var init := incidents[..n];
    var tail := if Qualifies(baseline, incidents[n]) then WatchedOf(w, incidents[n].components) else [];
    LastWithIdAppend(Written(w, baseline, init), tail, k);
    if j < n {
      assert init[j] == incidents[j];
      WrittenLast(w, baseline, init, j, k);
    }
  }

  /** The table has no freshness check: an older observation of a component
      replaces a newer one when it comes from a later incident. */
  lemma StaleObservationOverwrites()
    ensures
      var w := WatchSet(["api"], None);
      var newer := Component("api", "API", "major_outage", Some("g"), 300);
      var older := Component("api", "API", "operational", Some("g"), 100);
      var incidents := [Incident("Outage", "investigating", 200, 300, ["Looking"], [newer]),
                        Incident("Maintenance", "completed", 50, 250, ["Done"], [older])];
      Get(PutAll(Empty, Written(w, None, incidents)), "api") == Some(older)
  {
    var w := WatchSet(["api"], None);
    var newer := Component("api", "API", "major_outage", Some("g"), 300);
    var older := Component("api", "API", "operational", Some("g"), 100);
    var incidents := [Incident("Outage", "investigating", 200, 300, ["Looking"], [newer]),
                      Incident("Maintenance", "completed", 50, 250, ["Done"], [older])];
    assert WatchedOf(w, [older]) == [older];
    assert LastWithId(WatchedOf(w, incidents[1].components), "api") == Some(older);
    LaterIncidentWins(w, None, incidents, Empty, 1, "api");
  }

  /** Every entry of the table is a watched component stored under its own id. */
  predicate WatchedTable(w: WatchSet, t: Table) {
    forall k | k in t.entries :: t.entries[k].id == k && Watched(w, t.entries[k])
  }

  lemma PutWatched(w: WatchSet, t: Table, c: Component)
    requires WatchedTable(w, t) && Watched(w, c)
    ensures WatchedTable(w, Put(t, c))
  {
  }

  /** Writing only watched components keeps a table of watched
      components. */
  lemma {:induction false} PutAllWatched(w: WatchSet, t: Table, cs: seq<Component>)
    requires WatchedTable(w, t)
    requires forall c | c in cs :: Watched(w, c)
    ensures WatchedTable(w, PutAll(t, cs))
  {
    if cs != [] {
      var init := cs[..|cs| - 1];
      assert forall c | c in init :: c in cs;
      PutAllWatched(w, t, init);
      PutWatched(w, PutAll(t, init), cs[|cs| - 1]);
    }
  }

  lemma WrittenStep(w: WatchSet, baseline: Option<Snapshot>, incidents: seq<Incident>, i: nat)
    requires BaselineOk(baseline) && i < |incidents|
    ensures Written(w, baseline, incidents[..i + 1]) == Written(w, baseline, incidents[..i])
      + (if Qualifies(baseline, incidents[i]) then WatchedOf(w, incidents[i].components) else [])
  {
    assert incidents[..i + 1][..i] == incidents[..i];
  }

  /** What one more incident adds to a pass: to the care flag and to the table. */
  lemma PassStep(w: WatchSet, baseline: Option<Snapshot>, incidents: seq<Incident>, i: nat, t: Table)
    requires BaselineOk(baseline) && i < |incidents|
    ensures |Written(w, baseline, incidents[..i + 1])| > 0 <==>
      |Written(w, baseline, incidents[..i])| > 0 || (Qualifies(baseline, incidents[i]) && |WatchedOf(w, incidents[i].components)| > 0)
    ensures PutAll(t, Written(w, baseline, incidents[..i + 1])) ==
      if Qualifies(baseline, incidents[i])
      then PutAll(PutAll(t, Written(w, baseline, incidents[..i])), WatchedOf(w, incidents[i].components))
      else PutAll(t, Written(w, baseline, incidents[..i]))
  {
    WrittenStep(w, baseline, incidents, i);
    var done := Written(w, baseline, incidents[..i]);
    if Qualifies(baseline, incidents[i]) {
      PutAllAppend(t, done, WatchedOf(w, incidents[i].components));
    } else {
      assert Written(w, baseline, incidents[..i + 1]) == done;
    }
  }

  /** What one more component adds to the components of an incident: to
      the care flag and to the table. */
  lemma RecordStep(w: WatchSet, cs: seq<Component>, j: nat, t: Table)
    requires j < |cs|
    ensures |WatchedOf(w, cs[..j + 1])| > 0 <==> |WatchedOf(w, cs[..j])| > 0 || Watched(w, cs[j])
    ensures PutAll(t, WatchedOf(w, cs[..j + 1])) ==
      if Watched(w, cs[j]) then Put(PutAll(t, WatchedOf(w, cs[..j])), cs[j]) else PutAll(t, WatchedOf(w, cs[..j]))
  {
    WatchedOfStep(w, cs, j);
    if Watched(w, cs[j]) {
      PutAllStep(t, WatchedOf(w, cs[..j]), cs[j]);
    } else {
      assert WatchedOf(w, cs[..j + 1]) == WatchedOf(w, cs[..j]);
    }
  }

  lemma WatchedOfStep(w: WatchSet, cs: seq<Component>, j: nat)
    requires j < |cs|
    ensures WatchedOf(w, cs[..j + 1]) == WatchedOf(w, cs[..j]) + (if Watched(w, cs[j]) then [cs[j]] else [])
  {
    assert cs[..j + 1][..j] == cs[..j];
  }

  lemma PutAllStep(t: Table, cs: seq<Component>, c: Component)
    ensures PutAll(t, cs + [c]) == Put(PutAll(t, cs), c)
  {
    assert (cs + [c])[..|cs|] == cs;
  }

  datatype Query = StatusQuery | ComponentsQuery | LastQuery

  datatype Reply = NoReply | Text(text: string) | Rich(message: Message)

  const UpdateHeader := "Insights Maintenance Incident Update"
  const LastHeader := "Most recent Insights Incident"

  function NotAvailable(q: Query): string {
    match q
    case StatusQuery => "Status not currently available."
    case ComponentsQuery => "Components not currently available."
    case LastQuery => "Incidents not currently available."
  }

  /** The reply to a query once the pass is done: a fixed text while no
      document is stored, otherwise the overall description, the component
      report, or the newest stored incident (nothing when that incident
      has no update to quote). */
  function QueryReply(q: Query, stats: Option<Snapshot>, table: Table, dateText: int -> string): (r: Reply)
    requires BaselineOk(stats) && Valid(table)
    ensures stats.None? ==> r == Text(NotAvailable(q))
    ensures stats.Some? && q != StatusQuery ==> !r.Text?
    ensures stats.Some? && q == ComponentsQuery ==> r.Rich? && |r.message.attachment.fields| == |table.keys|
    ensures stats.Some? && q == LastQuery ==> (r.Rich? <==> |stats.value.incidents[0].updates| > 0)
    ensures stats.Some? && q == StatusQuery ==> r == Text(stats.value.description)
    ensures stats.Some? && q == ComponentsQuery ==> r == Rich(ComponentsMessage(Values(table), dateText))
    ensures stats.Some? && q == LastQuery && r.Rich? ==>
      Some(r.message) == FormatIncident(stats.value.incidents[0], LastHeader, dateText)
  {
    match stats
    case None => Text(NotAvailable(q))
    case Some(s) =>
      match q
      case StatusQuery => Text(s.description)
      case ComponentsQuery => Rich(ComponentsMessage(Values(table), dateText))
      case LastQuery =>
        match FormatIncident(s.incidents[0], LastHeader, dateText)
        case Some(m) => Rich(m)
        case None => NoReply
  }

  class Tracker {
    const watch: WatchSet
    var stats: Option<Snapshot>
    var insightsComps: Table

    /** The stored document has a first incident, and the table maps each
        watched component's id to that component. */
    ghost predicate Valid()
      reads this
    {
      && BaselineOk(stats)
      && ComponentTable.Valid(insightsComps)
      && WatchedTable(watch, insightsComps)
    }

    constructor (watch: WatchSet)
      ensures Valid()
      ensures this.watch == watch && stats == None && insightsComps == Empty
    {
      this.watch := watch;
      stats := None;
      insightsComps := Empty;
    }

    /** One pass over a freshly fetched document: against the stored
        baseline, which stays fixed for the whole pass, write the watched
        components of every considered incident into the table and report
        whether there were any; store the new document only then. */
    method Reconcile(newStats: Snapshot) returns (care: bool)
      requires Valid()
      modifies this
      ensures Valid()
      ensures care == (|Written(watch, old(stats), newStats.incidents)| > 0)
      ensures stats == if care then Some(newStats) else old(stats)
      ensures insightsComps == PutAll(old(insightsComps), Written(watch, old(stats), newStats.incidents))
    {
      care := false;
      var baseline := stats;
      ghost var start := insightsComps;
      var incidents := newStats.incidents;
      var i := 0;
      assert incidents[..0] == [];
      while i < |incidents|
        invariant 0 <= i <= |incidents|
        invariant stats == baseline
        invariant care ==> |incidents| > 0
        invariant care == (|Written(watch, baseline, incidents[..i])| > 0)
        invariant insightsComps == PutAll(start, Written(watch, baseline, incidents[..i]))
      {
        var incident := incidents[i];
        PassStep(watch, baseline, incidents, i, start);
        if baseline.None? || incident.updatedAt > baseline.value.incidents[0].updatedAt {
          var cared := RecordComponents(incident.components);
          care := care || cared;
        }
        i := i + 1;
      }
      assert incidents[..i] == incidents;
      WrittenMembers(watch, baseline, incidents);
      PutAllWatched(watch, start, Written(watch, baseline, incidents));
      if care {
        stats := Some(newStats);
      }
    }

    /** The components of one considered incident: each watched one is
        written into the table under its id, overwriting what was there. */
    method RecordComponents(components: seq<Component>) returns (cared: bool)
      modifies this
      ensures old(Valid()) ==> Valid()
      ensures stats == old(stats)
      ensures cared == (|WatchedOf(watch, components)| > 0)
      ensures insightsComps == PutAll(old(insightsComps), WatchedOf(watch, components))
    {
      cared := false;
      var w := watch;
      var table := insightsComps;
      var j := 0;
      assert components[..0] == [];
      while j < |components|
        invariant 0 <= j <= |components|
        invariant cared == (|WatchedOf(w, components[..j])| > 0)
        invariant table == PutAll(insightsComps, WatchedOf(w, components[..j]))
        modifies {}
      {
        var comp := components[j];
        RecordStep(w, components, j, insightsComps);
        if comp.id in w.compIds || comp.groupId == w.groupId {
          cared := true;
          table := Put(table, comp);
        }
        j := j + 1;
      }
      assert components[..j] == components;
      WatchedOfMembers(w, components);
      if Valid() {
        PutAllWatched(w, insightsComps, WatchedOf(w, components));
      }
      insightsComps := table;
    }

    /** The component report: one field per table entry in iteration order,
        coloured by the running colour of the entries. */
    method FormatComponents(dateText: int -> string) returns (msg: Message)
      requires Valid()
      ensures msg == ComponentsMessage(Values(insightsComps), dateText)
    {
      var fields: seq<Field> := [];
      var symbol := "";
      var table := insightsComps;
      var keys := table.keys;
      ghost var entries := Values(table);
      var i := 0;
      while i < |keys|
        invariant 0 <= i <= |keys|
        invariant fields == ComponentFields(entries[..i], dateText)
        invariant symbol == Colour(entries[..i])
      {
        var component := table.entries[keys[i]];
        ReportStep(entries, i, dateText);
        if component.status == "operational" && symbol != "warn" {
          symbol := "good";
        } else if symbol == "warn" {
          symbol := "danger";
        } else {
          symbol := "warn";
        }
        fields := fields + [Field(component.name + ": `" + component.status + "`",
                                  "Updated at: " + dateText(component.updatedAt), Some(false))];
        i := i + 1;
      }
      assert entries[..i] == entries;
      msg := Message(None, Attachment(Some(ServicesTitle), symbol, Some(ServicesTitle), fields, Footer, FooterIcon));
    }

    /** The timer's update: after a pass over the fetched document, post the
        first incident of the new document when the pass cared. Nothing is
        posted or changed when login, fetch or parsing failed (`fetched` is
        None), nor when the incident to post has no update. */
    method UpdateRequest(fetched: Option<Snapshot>, dateText: int -> string) returns (post: Option<Message>)
      requires Valid()
      modifies this
      ensures Valid()
      ensures fetched.None? ==> post == None && stats == old(stats) && insightsComps == old(insightsComps)
      ensures fetched.Some? ==>
        var care := |Written(watch, old(stats), fetched.value.incidents)| > 0;
        && stats == (if care then fetched else old(stats))
        && insightsComps == PutAll(old(insightsComps), Written(watch, old(stats), fetched.value.incidents))
        && post == (if care then FormatIncident(stats.value.incidents[0], UpdateHeader, dateText) else None)
    {
      post := None;
      if fetched.Some? {
        var care := Reconcile(fetched.value);
        if care {
          post := FormatIncident(stats.value.incidents[0], UpdateHeader, dateText);
        }
      }
    }

    /** A status, components or last-incident query: a pass over the fetched
        document, then the reply chosen from the tracker's state. Nothing is
        replied or changed when login, fetch or parsing failed. */
    method HandleQuery(q: Query, fetched: Option<Snapshot>, dateText: int -> string) returns (reply: Reply)
      requires Valid()
      modifies this
      ensures Valid()
      ensures fetched.None? ==> reply == NoReply && stats == old(stats) && insightsComps == old(insightsComps)
      ensures fetched.Some? ==>
        var care := |Written(watch, old(stats), fetched.value.incidents)| > 0;
        && stats == (if care then fetched else old(stats))
        && insightsComps == PutAll(old(insightsComps), Written(watch, old(stats), fetched.value.incidents))
        && reply == QueryReply(q, stats, insightsComps, dateText)
    {
      reply := NoReply;
      if fetched.Some? {
        var _ := Reconcile(fetched.value);
        if stats.None? {
          reply := Text(NotAvailable(q));
        } else {
          match q
          case StatusQuery =>
            reply := Text(stats.value.description);
          case ComponentsQuery =>
            var msg := FormatComponents(dateText);
            reply := Rich(msg);
          case LastQuery =>
            var formatted := FormatIncident(stats.value.incidents[0], LastHeader, dateText);
            reply := if formatted.Some? then Rich(formatted.value) else NoReply;
        }
      }
    }
  }

}
