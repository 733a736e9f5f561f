/**
  The exclude list of operator/es_client.go: a comma-separated string in the cluster settings
  that is merged, deduplicated, extended and pruned, and the set of IPs it stands for.
*/
module ExcludeList {
  import opened Base
  import opened Sequences
  import opened Text

  /** The part of _cluster/settings the client reads and writes; None is JSON null. */
  datatype Settings = Settings(
    transientIps: Option<string>, persistentIps: Option<string>,
    transientRebalance: Option<string>, persistentRebalance: Option<string>)

  function ValueOrZero(s: Option<string>): string {
    if s.None? then "" else s.value
  }

  // ----- the set a list stands for -----

  /** The IPs of a comma-separated list; empty parts name nothing. */
  ghost function Ips(list: string): set<string> {
    set ip | ip in Split(list, ',') && ip != ""
  }

  /** The IPs excluded by the settings, wherever they are stored. */
  ghost function Excluded(v: Settings): set<string> {
    Ips(ValueOrZero(v.transientIps)) + Ips(ValueOrZero(v.persistentIps))
  }

  ghost function Members(parts: seq<string>): set<string> {
    set ip | ip in parts && ip != ""
  }

  /** Joining comma-free parts names exactly the parts that are not empty. */
  lemma IpsOfJoin(parts: seq<string>)
    requires forall p :: p in parts ==> ',' !in p
    ensures Ips(Join(parts, ',')) == Members(parts)
  {
    if parts != [] {
      SplitOfJoin(parts, ',');
    }
  }

  /** An IP is named by its own list exactly when it is one: not empty and without a comma. */
  lemma IpsOfOne(ip: string)
    ensures Ips(ip) == {ip} <==> ip != "" && ',' !in ip
    ensures ',' !in ip ==> Ips(ip) == if ip == "" then {} else {ip}
  {
    if ',' !in ip {
      SplitWhole(ip, ',');
    } else {
      assert ip !in Split(ip, ',');
    }
  }

  // ----- deduplicateIPs and mergeExcludeIpStrings -----

  /** The first occurrence of each part. */
  function Dedup(parts: seq<string>): (r: seq<string>)
    ensures Distinct(r)
    ensures forall p :: p in r <==> p in parts
  {
    if parts == [] then []
    else
      var front, last := Dedup(parts[..|parts| - 1]), parts[|parts| - 1];
      if last in parts[..|parts| - 1] then front else front + [last]
  }

  function DedupString(list: string): string {
    if list == "" then "" else Join(Dedup(Split(list, ',')), ',')
  }

  method DeduplicateIPs(list: string) returns (r: string)
    ensures r == DedupString(list)
  {
    if list == "" {
      return "";
    }
    var seen: map<string, ()> := map[];
    var unique: seq<string> := [];
    var ips := Split(list, ',');
    for i := 0 to |ips|
      invariant unique == Dedup(ips[..i])
      invariant forall ip :: ip in seen <==> ip in ips[..i]
    {
      assert ips[..i + 1][..i] == ips[..i];
      if ips[i] !in seen {
        seen := seen[ips[i] := ()];
        unique := unique + [ips[i]];
      }
    }
    assert ips[..|ips|] == ips;
    r := Join(unique, ',');
  }

  lemma DedupKeepsSet(list: string)
    ensures Ips(DedupString(list)) == Ips(list)
  {
    IpsOfJoin(Dedup(Split(list, ',')));
  }

  function MergeExcludeIpStrings(transient: string, persistent: string): string {
    if transient == "" then persistent else transient + "," + persistent
  }

  lemma MergeIsUnion(transient: string, persistent: string)
    ensures Ips(MergeExcludeIpStrings(transient, persistent)) == Ips(transient) + Ips(persistent)
  {
    SplitConcat(transient, persistent, ',');
  }

  // ----- MergeNonEmptyTransientSettings -----

  function Merged(v: Settings): Settings {
    var rebalance := ValueOrZero(v.transientRebalance);
    var t, p := ValueOrZero(v.transientIps), ValueOrZero(v.persistentIps);
    Settings(
      None,
      if p == "" && t != "" then Some(t)
      else if p != "" then Some(DedupString(MergeExcludeIpStrings(t, p)))
      else v.persistentIps,
      if rebalance != "" then None else v.transientRebalance,
      if rebalance != "" then Some(rebalance) else v.persistentRebalance)
  }

  /** The settings object a request decodes and changes before it is sent back. */
  class ESSettings {
    var transientIps: Option<string>
    var persistentIps: Option<string>
    var transientRebalance: Option<string>
    var persistentRebalance: Option<string>

    function Value(): Settings
      reads this
    {
      Settings(transientIps, persistentIps, transientRebalance, persistentRebalance)
    }

    constructor (v: Settings)
      ensures Value() == v
    {
      transientIps, persistentIps := v.transientIps, v.persistentIps;
      transientRebalance, persistentRebalance := v.transientRebalance, v.persistentRebalance;
    }

    method MergeNonEmptyTransientSettings()
      modifies this
      ensures Value() == Merged(old(Value()))
    {
      var rebalance := ValueOrZero(transientRebalance);
      if rebalance != "" {
        persistentRebalance := Some(rebalance);
        transientRebalance := None;
      }
      var t, p := ValueOrZero(transientIps), ValueOrZero(persistentIps);
      if p == "" && t != "" {
        persistentIps := Some(t);
      } else if p != "" {
        var unique := DeduplicateIPs(MergeExcludeIpStrings(t, p));
        persistentIps := Some(unique);
      }
      transientIps := None;
    }
  }

  /** Merging loses no IP, invents none, and leaves the transient list null. */
  lemma MergeKeepsExcluded(v: Settings)
    ensures Excluded(Merged(v)) == Excluded(v) && Merged(v).transientIps == None
    ensures Excluded(v) == Ips(ValueOrZero(Merged(v).persistentIps))
  {
    var t, p := ValueOrZero(v.transientIps), ValueOrZero(v.persistentIps);
    DedupKeepsSet(MergeExcludeIpStrings(t, p));
    MergeIsUnion(t, p);
    IpsOfOne("");
    hide Ips, DedupString, MergeExcludeIpStrings;
  }

  // ----- requests -----

  /** How a PUT ends: done, refused, or done with the reply lost. */
  datatype Put = Accepted | Refused | ReplyLost

  /** excludePodIP: the list to write for a merged one, None when the IP is already in it. */
  function ListWith(list: string, podIP: string): Option<string> {
    var ips := if list == "" then [] else Split(list, ',');
    if podIP in ips then None else Some(Join(SortStrings(ips + [podIP]), ','))
  }

  /** Cleanup: the list to write for a merged one, the same list when nothing is to be written. */
  function PrunedList(list: string, nodes: seq<string>): string {
    Join(SortStrings(Kept(Split(list, ','), nodes)), ',')
  }

  /** The parts that are the IP of a node of the cluster. */
  function Kept(parts: seq<string>, nodes: seq<string>): seq<string> {
    FlatMap(parts, p => if p in nodes then [p] else [])
  }

  function WithIps(v: Settings, list: string): Settings {
    v.(persistentIps := Some(list))
  }

  function WithRebalance(v: Settings, value: string): Settings {
    v.(persistentRebalance := Some(value))
  }

  /** The settings of the cluster after a PUT of sent. */
  function AfterPut(before: Settings, sent: Settings, put: Put): Settings {
    if put == Refused then before else sent
  }

  /** What a call leaves in the cluster, and whether it returns nil. */
  datatype Outcome = Outcome(settings: Settings, ok: bool)

  function AfterExclude(v: Settings, podIP: string, readable: bool, put: Put): Outcome {
    if !readable then Outcome(v, false)
    else
      var list := ListWith(ValueOrZero(Merged(v).persistentIps), podIP);
      if list.None? then Outcome(v, true)
      else Outcome(AfterPut(v, WithIps(Merged(v), list.value), put), put == Accepted)
  }

  function AfterSetRebalance(v: Settings, value: string, readable: bool, put: Put): Outcome {
    if !readable then Outcome(v, false)
    else Outcome(AfterPut(v, WithRebalance(Merged(v), value), put), put == Accepted)
  }

  /** The writes of Cleanup: the pruned list if it differs from the merged one, then rebalancing. */
  function AfterPrune(v: Settings, merged: Settings, pruned: string, put1: Put, put2: Put): Outcome {
    var write := pruned != ValueOrZero(merged.persistentIps);
    var local := if write then WithIps(merged, pruned) else merged;
    var stored := if write then AfterPut(v, local, put1) else v;
    if write && put1 != Accepted then Outcome(stored, false)
    else if ValueOrZero(local.persistentRebalance) != "all" then
      Outcome(AfterPut(stored, WithRebalance(local, "all"), put2), put2 == Accepted)
    else Outcome(stored, true)
  }

  /** nodes is None when the node list cannot be read. */
  function AfterCleanup(v: Settings, nodes: Option<seq<string>>, readable: bool, put1: Put, put2: Put): Outcome {
    if nodes.None? || !readable then Outcome(v, false)
    else
      AfterPrune(v, Merged(v), PrunedList(ValueOrZero(Merged(v).persistentIps), nodes.value), put1, put2)
  }

  /** The cluster and the calls of one client on its settings. */
  class EsCluster {
    var settings: Settings

    constructor (v: Settings)
      ensures settings == v
    {
      settings := v;
    }

    method GetClusterSettings() returns (local: ESSettings)
      ensures fresh(local) && local.Value() == Merged(settings)
    {
      local := new ESSettings(settings);
      local.MergeNonEmptyTransientSettings();
    }

    method PutSettings(local: ESSettings, put: Put) returns (ok: bool)
      modifies this
      ensures settings == AfterPut(old(settings), local.Value(), put) && (ok <==> put == Accepted)
    {
      if put != Refused {
        settings := local.Value();
      }
      ok := put == Accepted;
    }

    method ExcludePodIP(podIP: string, readable: bool, put: Put) returns (ok: bool)
      modifies this
      ensures Outcome(settings, ok) == AfterExclude(old(settings), podIP, readable, put)
    {
      if !readable {
        return false;
      }
      var local := GetClusterSettings();
      var excludeString := ValueOrZero(local.persistentIps);
      var ips: seq<string> := [];
      if excludeString != "" {
        ips := Split(excludeString, ',');
      }
      var found := FindIP(ips, podIP);
      ok := true;
      if !found {
        var sorted := SortStrings(ips + [podIP]);
        local.persistentIps := Some(Join(sorted, ','));
        ok := PutSettings(local, put);
      }
    }

    /** The first half of Drain: switch shard rebalancing off. */
    method SetRebalance(value: string, readable: bool, put: Put) returns (ok: bool)
      modifies this
      ensures Outcome(settings, ok) == AfterSetRebalance(old(settings), value, readable, put)
    {
      if !readable {
        return false;
      }
      var local := GetClusterSettings();
      local.persistentRebalance := Some(value);
      ok := PutSettings(local, put);
    }

    method Cleanup(nodes: Option<seq<string>>, readable: bool, put1: Put, put2: Put) returns (ok: bool)
      modifies this
      ensures Outcome(settings, ok) == AfterCleanup(old(settings), nodes, readable, put1, put2)
    {
      if nodes.None? || !readable {
        return false;
      }
      var local := GetClusterSettings();
      var excludedIPsString := ValueOrZero(local.persistentIps);
      var newExcludedIPs := LiveIps(Split(excludedIPsString, ','), nodes.value);
      var newExcludedIPsString := Join(newExcludedIPs, ',');
      assert newExcludedIPsString == PrunedList(excludedIPsString, nodes.value);
      hide PrunedList, Merged;
      if newExcludedIPsString != excludedIPsString {
        local.persistentIps := Some(newExcludedIPsString);
        ok := PutSettings(local, put1);
        if !ok {
          return;
        }
      }
      if ValueOrZero(local.persistentRebalance) != "all" {
        local.persistentRebalance := Some("all");
        ok := PutSettings(local, put2);
        return;
      }
      return true;
    }
  }

  method FindIP(ips: seq<string>, podIP: string) returns (found: bool)
    ensures found <==> podIP in ips
  {
    for i := 0 to |ips|
      invariant podIP !in ips[..i]
    {
      if ips[i] == podIP {
        return true;
      }
    }
    return false;
  }

  /** The nested loop of Cleanup, which sorts after every IP it keeps. */
  method LiveIps(excludedIPs: seq<string>, nodes: seq<string>) returns (kept: seq<string>)
    ensures kept == SortStrings(Kept(excludedIPs, nodes))
  {
    kept := [];
    for i := 0 to |excludedIPs|
      invariant IsSortOf(kept, Kept(excludedIPs[..i], nodes), Lex())
    {
      KeptOneMore(excludedIPs, i, nodes);
      SortedOneMore(kept, Kept(excludedIPs[..i], nodes), excludedIPs[i]);
      hide IsSortOf, Kept, SortStrings;
      var live := FindIP(nodes, excludedIPs[i]);
      if live {
        kept := SortStrings(kept + [excludedIPs[i]]);
      }
    }
    assert excludedIPs[..|excludedIPs|] == excludedIPs;
    SortStringsUnique(kept, Kept(excludedIPs, nodes));
  }

  lemma KeptOneMore(parts: seq<string>, i: nat, nodes: seq<string>)
    requires i < |parts|
    ensures Kept(parts[..i + 1], nodes) == Kept(parts[..i], nodes) + if parts[i] in nodes then [parts[i]] else []
  {
    assert parts[..i + 1][..i] == parts[..i];
  }

  lemma SortedOneMore(sorted: seq<string>, s: seq<string>, x: string)
    requires IsSortOf(sorted, s, Lex())
    ensures IsSortOf(SortStrings(sorted + [x]), s + [x], Lex())
  {
    hide SortStrings;
  }

  // ----- each call as an operation on the set -----

  lemma {:induction false} KeptMembers(parts: seq<string>, nodes: seq<string>)
    ensures forall p :: p in Kept(parts, nodes) <==> p in parts && p in nodes
  {
    if parts != [] {
      KeptMembers(parts[..|parts| - 1], nodes);
      assert parts == parts[..|parts| - 1] + [parts[|parts| - 1]];
    }
  }

  lemma {:induction false} KeptAll(parts: seq<string>, nodes: seq<string>)
    requires forall p :: p in parts ==> p in nodes
    ensures Kept(parts, nodes) == parts
  {
    if parts != [] {
      KeptAll(parts[..|parts| - 1], nodes);
    }
  }

  ghost function AsSet(nodes: seq<string>): set<string> {
    set n | n in nodes
  }

  lemma PrunedIsIntersection(list: string, nodes: seq<string>)
    ensures Ips(PrunedList(list, nodes)) == Ips(list) * AsSet(nodes)
  {
    var kept := Kept(Split(list, ','), nodes);
    KeptMembers(Split(list, ','), nodes);
    PermutationMembers(SortStrings(kept), kept);
    IpsOfJoin(SortStrings(kept));
  }

  lemma ListWithInserts(list: string, podIP: string)
    requires ',' !in podIP
    ensures ListWith(list, podIP).Some? ==> Ips(ListWith(list, podIP).value) == Ips(list) + Ips(podIP)
    ensures ListWith(list, podIP).None? ==> Ips(podIP) <= Ips(list)
  {
    var ips := if list == "" then [] else Split(list, ',');
    PartsAreMembers(list);
    IpsOfOne(podIP);
    InsertedMembers(ips, podIP);
    hide Ips, Split, Join, SortStrings, Members;
    if podIP in ips {
      OneMember(ips, podIP);
    }
  }

  lemma PartsAreMembers(list: string)
    ensures Ips(list) == Members(if list == "" then [] else Split(list, ','))
  {
  }

  lemma OneMember(parts: seq<string>, part: string)
    requires part in parts
    ensures (if part == "" then {} else {part}) <= Members(parts)
  {
  }

  lemma InsertedMembers(ips: seq<string>, podIP: string)
    requires ',' !in podIP && forall p :: p in ips ==> ',' !in p
    ensures Ips(Join(SortStrings(ips + [podIP]), ',')) == Members(ips) + (if podIP == "" then {} else {podIP})
  {
    var sorted := SortStrings(ips + [podIP]);
    PermutationMembers(sorted, ips + [podIP]);
    hide *;
    IpsOfJoin(sorted) by {
      assert forall p :: p in sorted ==> ',' !in p;
    }
    MembersOneMore(ips, podIP, sorted);
  }

  lemma MembersOneMore(ips: seq<string>, podIP: string, sorted: seq<string>)
    requires forall p :: p in sorted <==> p in ips + [podIP]
    ensures Members(sorted) == Members(ips) + if podIP == "" then {} else {podIP}
  {
  }

  /** Excluding inserts the IP and drops none; it returns nil only with the IP in the list. */
  lemma ExcludeInserts(v: Settings, podIP: string, readable: bool, put: Put)
    requires ',' !in podIP
    ensures var r := AfterExclude(v, podIP, readable, put);
            && Excluded(r.settings) == Excluded(v) + (if readable && put != Refused then Ips(podIP) else {})
            && (r.ok ==> Ips(podIP) <= Excluded(r.settings))
  {
    MergeKeepsExcluded(v);
    ListWithInserts(ValueOrZero(Merged(v).persistentIps), podIP);
    IpsOfOne("");
    hide Ips, Merged, ListWith;
  }

  lemma RebalanceKeepsExcluded(v: Settings, value: string, readable: bool, put: Put)
    ensures Excluded(AfterSetRebalance(v, value, readable, put).settings) == Excluded(v)
  {
    MergeKeepsExcluded(v);
    hide Ips, Merged;
  }

  /** Cleaning up intersects the list with the IPs of the nodes, completely if it returns nil. */
  lemma CleanupIntersects(v: Settings, nodes: Option<seq<string>>, readable: bool, put1: Put, put2: Put)
    ensures var r := AfterCleanup(v, nodes, readable, put1, put2);
            && Excluded(r.settings) == (if nodes.Some? && readable && put1 != Refused
                                        then Excluded(v) * AsSet(nodes.value) else Excluded(v))
            && (r.ok ==> nodes.Some? && Excluded(r.settings) == Excluded(v) * AsSet(nodes.value))
  {
    MergeKeepsExcluded(v);
    if nodes.Some? {
      var list := ValueOrZero(Merged(v).persistentIps);
      PrunedIsIntersection(list, nodes.value);
      hide Merged, PrunedList, AsSet, Excluded, AfterPrune;
      PruneOutcome(v, Merged(v), PrunedList(list, nodes.value), put1, put2, AsSet(nodes.value));
    }
  }

  lemma PruneOutcome(v: Settings, merged: Settings, pruned: string, put1: Put, put2: Put, live: set<string>)
    requires merged.transientIps == None && Excluded(v) == Ips(ValueOrZero(merged.persistentIps))
    requires Ips(pruned) == Excluded(v) * live
    ensures var r := AfterPrune(v, merged, pruned, put1, put2);
            && Excluded(r.settings) == (if put1 != Refused then Excluded(v) * live else Excluded(v))
            && (r.ok ==> Excluded(r.settings) == Excluded(v) * live)
  {
    PersistentOnly(merged);
    PersistentOnly(WithIps(merged, pruned));
    SameListSameSet(merged, WithRebalance(merged, "all"));
    SameListSameSet(WithIps(merged, pruned), WithRebalance(WithIps(merged, pruned), "all"));
    hide Excluded, Ips;
  }

  lemma PersistentOnly(v: Settings)
    requires v.transientIps == None
    ensures Excluded(v) == Ips(ValueOrZero(v.persistentIps))
  {
    IpsOfOne("");
  }

  lemma SameListSameSet(v: Settings, w: Settings)
    requires w.transientIps == v.transientIps && w.persistentIps == v.persistentIps
    ensures Excluded(v) == Excluded(w)
  {
  }

  // ----- which strings are written -----

  /** Deduplicating keeps the order in which the parts come first. */
  ghost predicate FirstAt(parts: seq<string>, p: string, k: nat) {
    k < |parts| && parts[k] == p && p !in parts[..k]
  }

  lemma {:induction false} DedupKeepsOrder(parts: seq<string>, i: nat, j: nat) returns (k: nat, l: nat)
    requires i < j < |Dedup(parts)|
    ensures k < l && FirstAt(parts, Dedup(parts)[i], k) && FirstAt(parts, Dedup(parts)[j], l)
  {
    var front, last := parts[..|parts| - 1], parts[|parts| - 1];
    if j < |Dedup(front)| {
      k, l := DedupKeepsOrder(front, i, j);
      assert parts[..l] == front[..l] && parts[..k] == front[..k];
    } else {
      l := |parts| - 1;
      k := FirstPlace(front, Dedup(front)[i]);
      assert parts[..k] == front[..k];
    }
  }

  lemma {:induction false} FirstPlace(parts: seq<string>, p: string) returns (k: nat)
    requires p in parts
    ensures FirstAt(parts, p, k)
  {
    var front := parts[..|parts| - 1];
    if p in front {
      k := FirstPlace(front, p);
      assert parts[..k] == front[..k];
    } else {
      k := |parts| - 1;
      assert parts == front + [parts[k]];
    }
  }

  /** A transient list alone is kept; otherwise its parts come before the persistent ones, each once. */
  lemma MergedList(v: Settings)
    ensures var t, p := ValueOrZero(v.transientIps), ValueOrZero(v.persistentIps);
            && (p == "" && t != "" ==> Merged(v).persistentIps == Some(t))
            && (p == "" && t == "" ==> Merged(v).persistentIps == v.persistentIps)
            && (p != "" && t == "" ==> Merged(v).persistentIps == Some(Join(Dedup(Split(p, ',')), ',')))
            && (p != "" && t != "" ==>
                  Merged(v).persistentIps == Some(Join(Dedup(Split(t, ',') + Split(p, ',')), ',')))
  {
    var t, p := ValueOrZero(v.transientIps), ValueOrZero(v.persistentIps);
    if p != "" && t != "" {
      SplitConcat(t, p, ',');
    }
  }

  /** The lists written are sorted: all parts and the new IP, or the parts that are nodes. */
  lemma WrittenSorted(list: string, podIP: string, nodes: seq<string>)
    requires ',' !in podIP
    ensures ListWith(list, podIP).Some? ==>
              var parts := if list == "" then [] else Split(list, ',');
              IsSortOf(Split(ListWith(list, podIP).value, ','), parts + [podIP], Lex())
    ensures var kept := Kept(Split(list, ','), nodes);
            if kept == [] then PrunedList(list, nodes) == ""
            else IsSortOf(Split(PrunedList(list, nodes), ','), kept, Lex())
  {
    var parts := if list == "" then [] else Split(list, ',');
    SortedParts(parts + [podIP]);
    var kept := Kept(Split(list, ','), nodes);
    KeptMembers(Split(list, ','), nodes);
    SortedParts(kept);
    hide Split, Join, Kept;
  }

  lemma SortedParts(parts: seq<string>)
    requires forall p :: p in parts ==> ',' !in p
    ensures if parts == [] then Join(SortStrings(parts), ',') == ""
            else IsSortOf(Split(Join(SortStrings(parts), ','), ','), parts, Lex())
  {
    PermutationMembers(SortStrings(parts), parts);
    assert |SortStrings(parts)| == |multiset(SortStrings(parts))| == |parts|;
    if parts != [] {
      assert parts[0] in SortStrings(parts);
      SplitOfJoin(SortStrings(parts), ',');
    }
  }

  // ----- rebalancing -----

  /** What Elasticsearch goes by: a transient value before a persistent one. */
  function Rebalance(v: Settings): string {
    if ValueOrZero(v.transientRebalance) != "" then ValueOrZero(v.transientRebalance)
    else ValueOrZero(v.persistentRebalance)
  }

  /** Merging makes the value in force the persistent one. */
  lemma MergeKeepsRebalance(v: Settings)
    ensures Rebalance(Merged(v)) == Rebalance(v) == ValueOrZero(Merged(v).persistentRebalance)
    ensures ValueOrZero(Merged(v).transientRebalance) == ""
  {
  }

  lemma ExcludeKeepsRebalance(v: Settings, podIP: string, readable: bool, put: Put)
    ensures Rebalance(AfterExclude(v, podIP, readable, put).settings) == Rebalance(v)
  {
    MergeKeepsRebalance(v);
    hide ListWith, Merged;
  }

  lemma SetRebalanceSets(v: Settings, value: string, readable: bool, put: Put)
    ensures var r := AfterSetRebalance(v, value, readable, put);
            && Rebalance(r.settings) == (if readable && put != Refused then value else Rebalance(v))
            && (r.ok <==> readable && put == Accepted)
  {
    MergeKeepsRebalance(v);
    hide Merged;
  }

  /** A cleanup only ever switches rebalancing on, and has done so when it returns nil. */
  lemma CleanupRebalances(v: Settings, nodes: Option<seq<string>>, readable: bool, put1: Put, put2: Put)
    ensures var r := AfterCleanup(v, nodes, readable, put1, put2);
            && Rebalance(r.settings) in {Rebalance(v), "all"} && (r.ok ==> Rebalance(r.settings) == "all")
            && (nodes.Some? && readable && put1 == Accepted && put2 == Accepted ==> r.ok)
            && (nodes.None? || !readable ==> !r.ok)
  {
    MergeKeepsRebalance(v);
    hide Merged, PrunedList;
  }

  /** A cleanup returns nil exactly when both lists were read and each write that is needed got its reply. */
  lemma CleanupSucceeds(v: Settings, nodes: Option<seq<string>>, readable: bool, put1: Put, put2: Put)
    ensures AfterCleanup(v, nodes, readable, put1, put2).ok
       <==> && nodes.Some? && readable && (Rebalance(v) == "all" || put2 == Accepted)
            && (put1 == Accepted || var list := ValueOrZero(Merged(v).persistentIps);
                                    PrunedList(list, nodes.value) == list)
  {
    MergeKeepsRebalance(v);
    hide Merged, PrunedList;
  }

  /** Excluding returns nil exactly when the IP was there, or was written with a reply. */
  lemma ExcludeSucceeds(v: Settings, podIP: string, readable: bool, put: Put)
    requires ',' !in podIP && podIP != ""
    ensures AfterExclude(v, podIP, readable, put).ok <==> readable && (podIP in Excluded(v) || put == Accepted)
  {
    MergeKeepsExcluded(v);
    var list := ValueOrZero(Merged(v).persistentIps);
    PartsAreMembers(list);
    hide Merged, Split;
  }

  /**
    Main result. After a drain that got through and any further exclusions, the IP is excluded and
    rebalancing is off; a cleanup that gets through switches it on and keeps the IP exactly if a
    node has it.
  */
  lemma DrainThenCleanup(v: Settings, podIP: string, calls: seq<Call>, nodes: seq<string>)
    requires ',' !in podIP && podIP != "" && PodIpsHaveNoComma(calls)
    requires forall i :: 0 <= i < |calls| ==> calls[i].Exclude?
    requires AfterExclude(AfterSetRebalance(v, "none", true, Accepted).settings, podIP, true, Accepted).ok
    ensures var drained := AfterExclude(AfterSetRebalance(v, "none", true, Accepted).settings, podIP, true, Accepted);
            var later := AfterAll(drained.settings, calls);
            var cleaned := AfterCleanup(later, Some(nodes), true, Accepted, Accepted);
            && podIP in Excluded(later) && Rebalance(later) == "none"
            && cleaned.ok && Rebalance(cleaned.settings) == "all"
            && (podIP in Excluded(cleaned.settings) <==> podIP in nodes)
  {
    var switched := AfterSetRebalance(v, "none", true, Accepted).settings;
    var drained := AfterExclude(switched, podIP, true, Accepted).settings;
    SetRebalanceSets(v, "none", true, Accepted);
    ExcludeKeepsRebalance(switched, podIP, true, Accepted);
    ExcludeInserts(switched, podIP, true, Accepted);
    IpsOfOne(podIP);
    hide AfterExclude, AfterSetRebalance, AfterCleanup, Rebalance, Excluded, Ips;
    ExcludesKeep(drained, calls);
    CleanupRebalances(AfterAll(drained, calls), Some(nodes), true, Accepted, Accepted);
    CleanupIntersects(AfterAll(drained, calls), Some(nodes), true, Accepted, Accepted);
  }

  lemma {:induction false} ExcludesKeep(v: Settings, calls: seq<Call>)
    requires PodIpsHaveNoComma(calls) && forall i :: 0 <= i < |calls| ==> calls[i].Exclude?
    ensures Excluded(v) <= Excluded(AfterAll(v, calls)) && Rebalance(AfterAll(v, calls)) == Rebalance(v)
  {
    if calls != [] {
      var front, last := calls[..|calls| - 1], calls[|calls| - 1];
      ExcludesKeep(v, front);
      ExcludeKeepsRebalance(AfterAll(v, front), last.podIP, last.readable, last.put);
      ExcludeInserts(AfterAll(v, front), last.podIP, last.readable, last.put);
      hide AfterExclude, Rebalance, Excluded, Ips;
    }
  }

  // ----- a second cleanup -----

  lemma {:induction false} DedupSorted(parts: seq<string>)
    requires SortedBy(parts, Lex())
    ensures SortedBy(Dedup(parts), Lex())
  {
    if parts != [] {
      var front, last := parts[..|parts| - 1], parts[|parts| - 1];
      DedupSorted(front);
      forall i | 0 <= i < |Dedup(front)| ensures Lex()(Dedup(front)[i], last) {
        assert Dedup(front)[i] in front;
        var k :| 0 <= k < |front| && front[k] == Dedup(front)[i];
        assert Lex()(parts[k], last);
      }
    }
  }

  /** A list that was pruned is not changed by merging, deduplicating and pruning it again. */
  lemma PrunedIsStable(list: string, nodes: seq<string>)
    ensures var again := DedupString(PrunedList(list, nodes));
            PrunedList(again, nodes) == again
  {
    var kept := Kept(Split(list, ','), nodes);
    var sorted := SortStrings(kept);
    KeptMembers(Split(list, ','), nodes);
    PermutationMembers(sorted, kept);
    if Join(sorted, ',') == "" {
      EmptyIsStable(nodes);
    } else {
      SplitOfJoin(sorted, ',');
      SortedIsStable(sorted, nodes);
    }
  }

  lemma EmptyIsStable(nodes: seq<string>)
    ensures PrunedList("", nodes) == ""
  {
    var empty := Kept([""], nodes);
    assert [""][..0] == [];
    assert empty == [] || empty == [""];
    PermutationMembers(SortStrings(empty), empty);
  }

  lemma SortedIsStable(sorted: seq<string>, nodes: seq<string>)
    requires sorted != [] && SortedBy(sorted, Lex())
    requires forall p :: p in sorted ==> p in nodes && ',' !in p
    ensures var again := Join(Dedup(sorted), ',');
            PrunedList(again, nodes) == again
  {
    var unique := Dedup(sorted);
    DedupSorted(sorted);
    assert unique != [] by {
      assert sorted[0] in sorted;
    }
    hide Dedup, SortedBy;
    SplitOfJoin(unique, ',');
    KeptAll(unique, nodes);
    SortStringsUnique(unique, unique);
  }

  /** What a cleanup that returned nil leaves: the settings as they were, or its own. */
  lemma CleanupLeaves(v: Settings, nodes: seq<string>, put1: Put, put2: Put)
    requires AfterCleanup(v, Some(nodes), true, put1, put2).ok
    ensures var list := ValueOrZero(Merged(v).persistentIps);
            var pruned := PrunedList(list, nodes);
            var w := AfterCleanup(v, Some(nodes), true, put1, put2).settings;
            || (w == v && pruned == list && ValueOrZero(Merged(v).persistentRebalance) == "all")
            || (w.transientIps == None && ValueOrZero(w.persistentIps) == pruned
                && ValueOrZero(w.transientRebalance) == "" && w.persistentRebalance == Some("all"))
  {
    MergeClearsTransient(v);
    hide Merged, PrunedList;
  }

  lemma MergeClearsTransient(v: Settings)
    ensures Merged(v).transientIps == None && ValueOrZero(Merged(v).transientRebalance) == ""
  {
  }

  lemma MergeAlone(v: Settings)
    requires v.transientIps == None && ValueOrZero(v.transientRebalance) == ""
    ensures ValueOrZero(Merged(v).persistentIps) == DedupString(ValueOrZero(v.persistentIps))
    ensures Merged(v).persistentRebalance == v.persistentRebalance
  {
  }

  /** After a cleanup that returned nil, a second one with the same nodes writes nothing. */
  lemma SecondCleanupWritesNothing(v: Settings, nodes: seq<string>, put1: Put, put2: Put, put3: Put, put4: Put)
    requires AfterCleanup(v, Some(nodes), true, put1, put2).ok
    ensures var first := AfterCleanup(v, Some(nodes), true, put1, put2);
            AfterCleanup(first.settings, Some(nodes), true, put3, put4) == first
  {
    PrunedIsStable(ValueOrZero(Merged(v).persistentIps), nodes);
    CleanupLeaves(v, nodes, put1, put2);
    var w := AfterCleanup(v, Some(nodes), true, put1, put2).settings;
    if w.transientIps == None && ValueOrZero(w.transientRebalance) == "" {
      MergeAlone(w);
    }
    hide PrunedList, DedupString, Merged;
  }

  // ----- whole runs -----

  datatype Call =
    | Exclude(podIP: string, readable: bool, put: Put)
    | SetRebalance(value: string, readable: bool, put: Put)
    | Cleanup(nodes: Option<seq<string>>, readable: bool, put1: Put, put2: Put)

  function After(v: Settings, call: Call): Settings {
    match call
    case Exclude(podIP, readable, put) => AfterExclude(v, podIP, readable, put).settings
    case SetRebalance(value, readable, put) => AfterSetRebalance(v, value, readable, put).settings
    case Cleanup(nodes, readable, put1, put2) => AfterCleanup(v, nodes, readable, put1, put2).settings
  }

  function AfterAll(v: Settings, calls: seq<Call>): Settings {
    if calls == [] then v else After(AfterAll(v, calls[..|calls| - 1]), calls[|calls| - 1])
  }

  /** The set machine: insert, nothing, intersect. */
  ghost function SetAfter(ips: set<string>, call: Call): set<string> {
    match call
    case Exclude(podIP, readable, put) => if readable && put != Refused && podIP != "" then ips + {podIP} else ips
    case SetRebalance(_, _, _) => ips
    case Cleanup(nodes, readable, put1, _) =>
      if nodes.Some? && readable && put1 != Refused then ips * AsSet(nodes.value) else ips
  }

  ghost function SetAfterAll(ips: set<string>, calls: seq<Call>): set<string> {
    if calls == [] then ips else SetAfter(SetAfterAll(ips, calls[..|calls| - 1]), calls[|calls| - 1])
  }

  ghost predicate PodIpsHaveNoComma(calls: seq<Call>) {
    forall i :: 0 <= i < |calls| && calls[i].Exclude? ==> ',' !in calls[i].podIP
  }

  lemma CallRefinesSet(v: Settings, call: Call)
    requires call.Exclude? ==> ',' !in call.podIP
    ensures Excluded(After(v, call)) == SetAfter(Excluded(v), call)
  {
    match call
    case Exclude(podIP, readable, put) =>
      ExcludeInserts(v, podIP, readable, put);
      IpsOfOne(podIP);
      hide AfterExclude, Excluded, Ips;
    case SetRebalance(value, readable, put) =>
      RebalanceKeepsExcluded(v, value, readable, put);
    case Cleanup(nodes, readable, put1, put2) =>
      CleanupIntersects(v, nodes, readable, put1, put2);
      hide AfterCleanup, Excluded, AsSet;
  }

  /**
    Main result: over every run of calls, with reads that fail, writes that are refused and
    replies that are lost, the strings in the cluster settings stand for exactly the set that
    inserting and intersecting gives.
  */
  lemma {:induction false} RunRefinesSet(v: Settings, calls: seq<Call>)
    requires PodIpsHaveNoComma(calls)
    ensures Excluded(AfterAll(v, calls)) == SetAfterAll(Excluded(v), calls)
  {
    if calls != [] {
      var front := calls[..|calls| - 1];
      RunRefinesSet(v, front);
      CallRefinesSet(AfterAll(v, front), calls[|calls| - 1]);
      hide Excluded, After, SetAfter;
    }
  }

  /**
    So no run re-admits an IP that every cleanup found among the nodes, and no run excludes an
    IP that was neither excluded at the start nor passed to a call.
  */
  lemma {:induction false} LiveIpsStayExcluded(v: Settings, calls: seq<Call>, ip: string)
    requires PodIpsHaveNoComma(calls)
    ensures ip in Excluded(v) && (forall i :: 0 <= i < |calls| && calls[i].Cleanup? && calls[i].nodes.Some? ==>
                                    ip in calls[i].nodes.value)
            ==> ip in Excluded(AfterAll(v, calls))
    ensures ip in Excluded(AfterAll(v, calls)) && ip !in Excluded(v) ==>
              exists i :: 0 <= i < |calls| && calls[i].Exclude? && calls[i].podIP == ip
  {
    if calls != [] {
      var front, last := calls[..|calls| - 1], calls[|calls| - 1];
      LiveIpsStayExcluded(v, front, ip);
      CallRefinesSet(AfterAll(v, front), last);
      hide Excluded, After;
    }
  }
}
