/** Merging the observations of one discovery pass into a map from MAC address, or else IP, to device. */
module Discovery {
  datatype Device = Device(site: string, ip: string, mac: string, vendor: string, hostname: string, source: string,
                           firstSeen: int, lastSeen: int)

  function KeyOf(d: Device): string {
    if d.mac == "" then d.ip else d.mac
  }

  function MergeFields(current: Device, next: Device): Device {
    current.(ip := if current.ip == "" then next.ip else current.ip,
             mac := if current.mac == "" then next.mac else current.mac,
             vendor := if current.vendor == "" then next.vendor else current.vendor,
             hostname := if current.hostname == "" then next.hostname else current.hostname,
             source := if current.source != next.source then current.source + "," + next.source else current.source,
             lastSeen := if next.lastSeen > current.lastSeen then next.lastSeen else current.lastSeen)
  }

  predicate SameIp(seen: map<string, Device>, k: string, ip: string) {
    k in seen && seen[k].ip == ip
  }

  /** The part of mergeDevice that does not depend on the order of map iteration. */
  function Place(seen: map<string, Device>, next: Device): map<string, Device> {
    var key := KeyOf(next);
    if next.mac != "" && next.ip in seen && seen[next.ip].mac == "" then
      (seen - {next.ip})[key := MergeFields(next, seen[next.ip])]
    else if key in seen then seen[key := MergeFields(seen[key], next)]
    else seen[key := next]
  }

  /** One call of mergeDevice. Without a MAC address the device goes to whichever entry with its
      IP the map iteration meets first. */
  ghost predicate Step(a: map<string, Device>, next: Device, b: map<string, Device>) {
    if next.mac == "" && exists k :: SameIp(a, k, next.ip)
    then exists k :: SameIp(a, k, next.ip) && b == a[k := MergeFields(a[k], next)]
    else b == Place(a, next)
  }

  ghost predicate Reaches(a: map<string, Device>, obs: seq<Device>, b: map<string, Device>)
    decreases |obs|
  {
    if obs == [] then b == a
    else exists mid :: Reaches(a, Front(obs), mid) && Step(mid, Last(obs), b)
  }

  function Front(obs: seq<Device>): seq<Device>
    requires obs != []
  {
    obs[..|obs| - 1]
  }

  function Last(obs: seq<Device>): Device
    requires obs != []
  {
    obs[|obs| - 1]
  }

  lemma Grows(a: map<string, Device>, front: seq<Device>, mid: map<string, Device>, next: Device,
              b: map<string, Device>)
    requires Reaches(a, front, mid) && Step(mid, next, b)
    ensures Reaches(a, front + [next], b)
  {
    assert Front(front + [next]) == front && Last(front + [next]) == next;
  }

  class Merger {
    var seen: map<string, Device>

    constructor ()
      ensures seen == map[]
    {
      seen := map[];
    }

    method MergeDevice(next: Device)
      modifies this
      ensures Step(old(seen), next, seen)
    {
      var key := next.mac;
      if key == "" {
        key := next.ip;
      }
      if next.mac == "" {
        var left := seen.Keys;
        while left != {}
          invariant left <= seen.Keys && seen == old(seen)
          invariant forall k :: k in seen.Keys - left ==> !SameIp(seen, k, next.ip)
        {
          var existingKey :| existingKey in left;
          var existing := seen[existingKey];
          if existing.ip == next.ip {
            assert SameIp(seen, existingKey, next.ip);
            seen := seen[existingKey := MergeFields(existing, next)];
            return;
          }
          left := left - {existingKey};
        }
      } else if next.ip in seen && seen[next.ip].mac == "" {
        var ipOnly := seen[next.ip];
        seen := seen - {next.ip};
        seen := seen[key := MergeFields(next, ipOnly)];
        return;
      }
      if key !in seen {
        seen := seen[key := next];
        return;
      }
      seen := seen[key := MergeFields(seen[key], next)];
    }

    /** The loops of DiscoveryRunner.Run over what its four sources reported. */
    method MergeAll(obs: seq<Device>)
      modifies this
      ensures Reaches(old(seen), obs, seen)
    {
      for i := 0 to |obs|
        invariant Reaches(old(seen), obs[..i], seen)
      {
        ghost var mid := seen;
        MergeDevice(obs[i]);
        Grows(old(seen), obs[..i], mid, obs[i], seen);
        assert obs[..i] + [obs[i]] == obs[..i + 1];
      }
      assert obs[..|obs|] == obs;
    }
  }

  // ---- any observations, in any order ----

  ghost predicate Keyed(seen: map<string, Device>) {
    forall k :: k in seen ==> k == KeyOf(seen[k])
  }

  /** No IP has both an entry without and an entry with a MAC address. */
  ghost predicate Apart(seen: map<string, Device>) {
    forall j, k :: j in seen && k in seen && seen[j].mac == "" && seen[k].mac != "" ==> seen[j].ip != seen[k].ip
  }

  predicate HasMac(obs: seq<Device>, mac: string) {
    exists i :: 0 <= i < |obs| && obs[i].mac == mac
  }

  predicate HasIp(obs: seq<Device>, ip: string) {
    exists i :: 0 <= i < |obs| && obs[i].ip == ip
  }

  /** Every observed MAC address has its entry, and entries name only what was observed. */
  ghost predicate Accounts(seen: map<string, Device>, obs: seq<Device>) {
    && (forall m :: m != "" && HasMac(obs, m) ==> m in seen && seen[m].mac == m)
    && (forall k :: k in seen ==> HasIp(obs, seen[k].ip) && (seen[k].mac == "" || HasMac(obs, seen[k].mac)))
  }

  lemma Longer(front: seq<Device>, next: Device)
    ensures forall m :: HasMac(front + [next], m) <==> HasMac(front, m) || m == next.mac
    ensures forall x :: HasIp(front + [next], x) <==> HasIp(front, x) || x == next.ip
  {
    var obs := front + [next];
    assert obs[|front|] == next && forall i :: 0 <= i < |front| ==> obs[i] == front[i];
  }

  lemma StepKeyed(a: map<string, Device>, next: Device, b: map<string, Device>)
    requires Step(a, next, b) && Keyed(a)
    ensures Keyed(b)
  {
  }

  lemma StepApart(a: map<string, Device>, next: Device, b: map<string, Device>)
    requires Step(a, next, b) && Keyed(a) && Apart(a)
    ensures Apart(b)
  {
    if next.mac == "" {
      forall k | k in a ensures a[k].ip == next.ip ==> SameIp(a, k, next.ip) {
      }
    }
  }

  /** A device with a MAC address for its key accounts for that address, and no other entry changes. */
  lemma PutAccounts(a: map<string, Device>, front: seq<Device>, next: Device, k: string, d: Device)
    requires Accounts(a, front) && (k in a ==> a[k].mac in {"", d.mac})
            && (next.mac != "" ==> k == next.mac && d.mac == next.mac)
    requires d.ip == next.ip || HasIp(front, d.ip)
    requires d.mac == "" || d.mac == next.mac || HasMac(front, d.mac)
    ensures Accounts(a[k := d], front + [next])
  {
    hide HasMac, HasIp;
    Longer(front, next);
  }

  lemma DropAccounts(a: map<string, Device>, front: seq<Device>, k: string)
    requires Accounts(a, front) && k in a && a[k].mac == ""
    ensures Accounts(a - {k}, front)
  {
    hide HasMac, HasIp;
  }

  lemma StepAccounts(a: map<string, Device>, front: seq<Device>, next: Device, b: map<string, Device>)
    requires Step(a, next, b) && Keyed(a) && Accounts(a, front)
    ensures Accounts(b, front + [next])
  {
    hide HasMac, HasIp;
    var key := KeyOf(next);
    if next.mac == "" && exists k :: SameIp(a, k, next.ip) {
      var k :| SameIp(a, k, next.ip) && b == a[k := MergeFields(a[k], next)];
      PutAccounts(a, front, next, k, MergeFields(a[k], next));
    } else if next.mac != "" && next.ip in a && a[next.ip].mac == "" {
      DropAccounts(a, front, next.ip);
      PutAccounts(a - {next.ip}, front, next, key, MergeFields(next, a[next.ip]));
    } else {
      PutAccounts(a, front, next, key, if key in a then MergeFields(a[key], next) else next);
    }
  }

  /** Whatever is observed, in whatever order, and however the map is iterated: each entry's key
      is its MAC address or else its IP, every observed MAC address has exactly one entry, and no
      IP has both kinds of entry. */
  lemma {:induction false} MergeSound(obs: seq<Device>, seen: map<string, Device>)
    requires Reaches(map[], obs, seen)
    ensures Keyed(seen) && Apart(seen) && Accounts(seen, obs)
    ensures forall m :: m != "" && HasMac(obs, m) ==> forall k :: k in seen && seen[k].mac == m <==> k == m
    decreases |obs|
  {
    hide Step, HasMac, HasIp;
    if obs != [] {
      var n := |obs| - 1;
      var mid :| Reaches(map[], obs[..n], mid) && Step(mid, obs[n], seen);
      MergeSound(obs[..n], mid);
      StepKeyed(mid, obs[n], seen);
      StepApart(mid, obs[n], seen);
      StepAccounts(mid, obs[..n], obs[n], seen);
      assert obs[..n] + [obs[n]] == obs;
    } else {
      Nothing();
    }
  }

  lemma Nothing()
    ensures forall m :: !HasMac([], m)
  {
  }

  /** What a device seen again adds to its entry: texts only where there were none, its source unless it
      is the text of those before, and a later time. No other entry changes. */
  lemma SeenAgain(a: map<string, Device>, next: Device, b: map<string, Device>)
    requires Step(a, next, b) && next.mac != "" && next.mac in a
    requires !(next.ip in a && a[next.ip].mac == "")
    ensures var was, d := a[next.mac], b[next.mac];
      && b == a[next.mac := d] && d.site == was.site && d.firstSeen == was.firstSeen
      && d.ip == (if was.ip != "" then was.ip else next.ip) && d.mac == (if was.mac != "" then was.mac else next.mac)
      && d.vendor == (if was.vendor != "" then was.vendor else next.vendor)
      && d.hostname == (if was.hostname != "" then was.hostname else next.hostname)
      && d.source == (if was.source == next.source then was.source else was.source + "," + next.source)
      && d.lastSeen == (if was.lastSeen >= next.lastSeen then was.lastSeen else next.lastSeen)
  {
  }

  // ---- the choice of entry ----

  function Outline(seen: map<string, Device>): map<string, (string, string)> {
    map k | k in seen :: (seen[k].ip, seen[k].mac)
  }

  lemma StepOutline(a: map<string, Device>, next: Device, b: map<string, Device>, a2: map<string, Device>,
                    b2: map<string, Device>)
    requires Outline(a) == Outline(a2) && Step(a, next, b) && Step(a2, next, b2)
    ensures Outline(b) == Outline(b2)
  {
    hide Place;
    SameKeys(a, a2);
    if next.mac == "" && exists k :: SameIp(a, k, next.ip) {
      hide Outline;
      ChosenOutline(a, next, b);
      ChosenOutline(a2, next, b2);
      var k :| SameIp(a, k, next.ip);
      assert SameIp(a2, k, next.ip);
    } else {
      forall k ensures !(next.mac == "" && SameIp(a2, k, next.ip)) {
        assert SameIp(a2, k, next.ip) ==> SameIp(a, k, next.ip);
      }
      PlacedOutline(a, a2, next);
    }
  }

  lemma PlacedOutline(a: map<string, Device>, b: map<string, Device>, next: Device)
    requires a.Keys == b.Keys && forall k :: k in a ==> a[k].ip == b[k].ip && a[k].mac == b[k].mac
    ensures Outline(Place(a, next)) == Outline(Place(b, next))
  {
  }

  lemma SameKeys(a: map<string, Device>, b: map<string, Device>)
    requires Outline(a) == Outline(b)
    ensures a.Keys == b.Keys && forall k :: k in a ==> a[k].ip == b[k].ip && a[k].mac == b[k].mac
  {
    forall k ensures k in a <==> k in b {
      assert k in a <==> k in Outline(a);
      assert k in b <==> k in Outline(b);
    }
    forall k | k in a ensures a[k].ip == b[k].ip && a[k].mac == b[k].mac {
      assert Outline(a)[k] == Outline(b)[k];
    }
  }

  lemma ChosenOutline(a: map<string, Device>, next: Device, b: map<string, Device>)
    requires next.mac == "" && Step(a, next, b) && exists k :: SameIp(a, k, next.ip)
    ensures Outline(b) == Outline(a)
  {
  }

  /** Which entry the map iteration meets first decides at most who gets the host name, vendor,
      source and time: the entries, their IPs and their MAC addresses are always the same. */
  lemma {:induction false} ChoiceFree(obs: seq<Device>, a: map<string, Device>, b: map<string, Device>)
    requires Reaches(map[], obs, a) && Reaches(map[], obs, b)
    ensures Outline(a) == Outline(b)
    decreases |obs|
  {
    hide Step, Outline;
    if obs != [] {
      var n := |obs| - 1;
      var a0 :| Reaches(map[], obs[..n], a0) && Step(a0, obs[n], a);
      var b0 :| Reaches(map[], obs[..n], b0) && Step(b0, obs[n], b);
      ChoiceFree(obs[..n], a0, b0);
      StepOutline(a0, obs[n], a, b0, b);
    }
  }

  // ---- the order of Run: sources with MAC addresses first, the ping sweep last ----

  /** The IP of the first observation of a MAC address, when no IP is empty. */
  function FirstIp(macs: seq<Device>, m: string): string {
    if macs == [] then ""
    else
      var n := |macs| - 1;
      if FirstIp(macs[..n], m) != "" then FirstIp(macs[..n], m) else if macs[n].mac == m then macs[n].ip else ""
  }

  ghost predicate Claimed(macs: seq<Device>, ip: string) {
    exists m :: m != "" && FirstIp(macs, m) == ip
  }

  ghost predicate RunOrder(macs: seq<Device>, bare: seq<Device>) {
    && (forall i :: 0 <= i < |macs| ==> macs[i].mac != "" && macs[i].ip != "")
    && (forall i :: 0 <= i < |bare| ==> bare[i].mac == "" && bare[i].ip != "")
  }

  /** The entries after Run: one for each MAC address, at the IP first seen with it, and one for
      each swept IP that is neither such an IP nor itself the text of a MAC address. */
  ghost predicate Expected(macs: seq<Device>, bare: seq<Device>, seen: map<string, Device>) {
    && (forall k :: k in seen <==>
          (k != "" && HasMac(macs, k)) || (HasIp(bare, k) && !HasMac(macs, k) && !Claimed(macs, k)))
    && (forall k :: k in seen ==> if HasMac(macs, k) then seen[k].mac == k && seen[k].ip == FirstIp(macs, k)
                                  else seen[k].mac == "" && seen[k].ip == k)
  }

  lemma FirstIpFound(macs: seq<Device>, m: string)
    requires RunOrder(macs, [])
    ensures FirstIp(macs, m) != "" <==> HasMac(macs, m)
  {
    if macs != [] {
      var n := |macs| - 1;
      FirstIpFound(macs[..n], m);
      Longer(macs[..n], macs[n]);
      assert macs[..n] + [macs[n]] == macs;
    }
  }

  lemma FirstIpGrows(front: seq<Device>, next: Device)
    requires RunOrder(front + [next], [])
    ensures forall m ::
      FirstIp(front + [next], m) == if m == next.mac && !HasMac(front, m) then next.ip else FirstIp(front, m)
  {
    hide HasMac;
    assert (front + [next])[..|front|] == front;
    assert RunOrder(front, []) by {
      assert forall i :: 0 <= i < |front| ==> front[i] == (front + [next])[i];
    }
    forall m
      ensures FirstIp(front + [next], m) == if m == next.mac && !HasMac(front, m) then next.ip else FirstIp(front, m)
    {
      FirstIpFound(front, m);
    }
  }

  /** The first text observed with a MAC address that is not empty. */
  function FirstText(macs: seq<Device>, m: string, text: Device -> string): string {
    if macs == [] then ""
    else
      var n := |macs| - 1;
      if FirstText(macs[..n], m, text) != "" then FirstText(macs[..n], m, text)
      else if macs[n].mac == m then text(macs[n]) else ""
  }

  function VendorOf(d: Device): string { d.vendor }
  function HostnameOf(d: Device): string { d.hostname }

  /** The sources that observed a MAC address, one after another; one is not repeated right after itself. */
  function SourcesOf(macs: seq<Device>, m: string): string {
    if macs == [] then ""
    else
      var n := |macs| - 1;
      var before := SourcesOf(macs[..n], m);
      if macs[n].mac != m then before
      else if !HasMac(macs[..n], m) then macs[n].source
      else if macs[n].source == before then before
      else before + "," + macs[n].source
  }

  /** The first observation of a MAC address. */
  function FirstSeen(macs: seq<Device>, m: string): (d: Device)
    requires HasMac(macs, m)
  {
    if macs[0].mac == m then macs[0]
    else
      assert macs == [macs[0]] + macs[1..];
      LongerBack(macs[0], macs[1..], m);
      FirstSeen(macs[1..], m)
  }

  lemma LongerBack(first: Device, rest: seq<Device>, m: string)
    requires HasMac([first] + rest, m) && first.mac != m
    ensures HasMac(rest, m)
  {
    var i :| 0 <= i < |[first] + rest| && ([first] + rest)[i].mac == m;
    assert rest[i - 1].mac == m;
  }

  lemma {:induction false} FirstSeenAppend(front: seq<Device>, next: Device, m: string)
    requires HasMac(front + [next], m)
    ensures FirstSeen(front + [next], m) == if HasMac(front, m) then FirstSeen(front, m) else next
  {
    if front == [] {
      assert [] + [next] == [next];
    } else {
      var all := front + [next];
      assert all[0] == front[0] && all[1..] == front[1..] + [next];
      if front[0].mac != m {
        assert all == [front[0]] + all[1..];
        LongerBack(front[0], all[1..], m);
        FirstSeenAppend(front[1..], next, m);
        if HasMac(front, m) {
          assert front == [front[0]] + front[1..];
          LongerBack(front[0], front[1..], m);
        } else {
          forall i | 0 <= i < |front[1..]| ensures front[1..][i].mac != m {
            assert front[i + 1].mac != m;
          }
        }
      } else {
        assert front[0].mac == m;
      }
    }
  }

  /** The latest time a MAC address was observed, if it was. */
  function LatestAt(macs: seq<Device>, m: string): int {
    if macs == [] then 0
    else
      var n := |macs| - 1;
      if macs[n].mac == m && (!HasMac(macs[..n], m) || macs[n].lastSeen > LatestAt(macs[..n], m)) then macs[n].lastSeen
      else LatestAt(macs[..n], m)
  }

  lemma {:induction false} OnlyObserved(macs: seq<Device>, m: string, text: Device -> string)
    requires !HasMac(macs, m)
    ensures FirstText(macs, m, text) == ""
  {
    hide HasMac;
    if macs != [] {
      var n := |macs| - 1;
      Longer(macs[..n], macs[n]);
      assert macs[..n] + [macs[n]] == macs;
      OnlyObserved(macs[..n], m, text);
    }
  }

  /** The entries while only observations with MAC addresses were merged. */
  ghost predicate MacEntries(macs: seq<Device>, seen: map<string, Device>) {
    && (forall k :: k in seen <==> k != "" && HasMac(macs, k))
    && (forall k :: k in seen ==> seen[k].mac == k && seen[k].ip == FirstIp(macs, k) && seen[k].ip != "")
  }

  ghost predicate MacDetails(macs: seq<Device>, seen: map<string, Device>) {
    forall k :: k in seen && HasMac(macs, k) ==> DetailsOf(macs, k, seen[k])
  }

  ghost predicate DetailsOf(macs: seq<Device>, m: string, d: Device)
    requires HasMac(macs, m)
  {
    && d.vendor == FirstText(macs, m, VendorOf) && d.hostname == FirstText(macs, m, HostnameOf)
    && d.source == SourcesOf(macs, m) && d.lastSeen == LatestAt(macs, m)
    && d.site == FirstSeen(macs, m).site && d.firstSeen == FirstSeen(macs, m).firstSeen
  }

  /** With MAC addresses only, nothing is overwritten: each entry has the site and first sighting of the
      first observation of its MAC address, the first IP, the first vendor and the first host name that
      are not empty, the sources one after another, and the latest time. */
  lemma {:induction false} MacPhase(macs: seq<Device>, seen: map<string, Device>)
    requires RunOrder(macs, []) && Reaches(map[], macs, seen)
    ensures MacEntries(macs, seen) && MacDetails(macs, seen)
    decreases |macs|
  {
    hide HasMac, FirstIp, FirstText, SourcesOf, FirstSeen, LatestAt, Step;
    if macs == [] {
      Nothing();
    } else {
      var front, next := Front(macs), Last(macs);
      var mid :| Reaches(map[], front, mid) && Step(mid, next, seen);
      assert front + [next] == macs;
      MacPhase(front, mid);
      MacStep(front, next, mid, seen);
      DetailsStep(front, next, mid, seen);
    }
  }

  lemma MacStep(front: seq<Device>, next: Device, mid: map<string, Device>, seen: map<string, Device>)
    requires RunOrder(front + [next], []) && MacEntries(front, mid) && Step(mid, next, seen)
    ensures MacEntries(front + [next], seen)
  {
    hide HasMac, FirstIp, HasIp;
    assert (front + [next])[|front|] == next;
    Longer(front, next);
    FirstIpGrows(front, next);
  }

  lemma DetailsStep(front: seq<Device>, next: Device, mid: map<string, Device>, seen: map<string, Device>)
    requires RunOrder(front + [next], []) && MacEntries(front, mid) && MacDetails(front, mid) && Step(mid, next, seen)
    ensures MacDetails(front + [next], seen)
  {
    hide HasMac, FirstIp, HasIp, FirstText, SourcesOf, FirstSeen, LatestAt, MergeFields, DetailsOf;
    assert (front + [next])[|front|] == next;
    Longer(front, next);
    forall k | k in seen && HasMac(front + [next], k) ensures DetailsOf(front + [next], k, seen[k]) {
      if k == next.mac {
        DetailsAgain(front, next, if HasMac(front, k) then mid[k] else next);
      } else {
        DetailsStay(front, next, k, mid[k]);
      }
    }
  }

  lemma DetailsStay(front: seq<Device>, next: Device, m: string, d: Device)
    requires m != next.mac && HasMac(front, m) && HasMac(front + [next], m) && DetailsOf(front, m, d)
    ensures DetailsOf(front + [next], m, d)
  {
    hide HasMac, FirstSeen;
    FirstSeenAppend(front, next, m);
    assert (front + [next])[..|front|] == front;
  }

  lemma DetailsAgain(front: seq<Device>, next: Device, d: Device)
    requires HasMac(front + [next], next.mac)
    requires if HasMac(front, next.mac) then DetailsOf(front, next.mac, d) else d == next
    ensures DetailsOf(front + [next], next.mac, if HasMac(front, next.mac) then MergeFields(d, next) else next)
  {
    hide HasMac, FirstSeen;
    FirstSeenAppend(front, next, next.mac);
    assert (front + [next])[..|front|] == front;
    if !HasMac(front, next.mac) {
      OnlyObserved(front, next.mac, VendorOf);
      OnlyObserved(front, next.mac, HostnameOf);
    }
  }

  lemma NoIps()
    ensures forall x :: !HasIp([], x)
  {
  }

  lemma MacsExpected(macs: seq<Device>, seen: map<string, Device>)
    requires MacEntries(macs, seen)
    ensures Expected(macs, [], seen)
  {
    hide HasMac, HasIp, FirstIp, Claimed;
    NoIps();
  }

  lemma {:induction false} SweepPhase(macs: seq<Device>, bare: seq<Device>, seen: map<string, Device>)
    requires RunOrder(macs, bare) && Reaches(map[], macs + bare, seen)
    ensures Expected(macs, bare, seen)
    decreases |bare|
  {
    hide HasMac, HasIp, FirstIp, Step, Expected;
    if bare == [] {
      assert macs + bare == macs;
      MacPhase(macs, seen);
      MacsExpected(macs, seen);
    } else {
      var front, next := Front(bare), Last(bare);
      assert Front(macs + bare) == macs + front && Last(macs + bare) == next;
      var mid :| Reaches(map[], macs + front, mid) && Step(mid, next, seen);
      SweepPhase(macs, front, mid);
      assert front + [next] == bare;
      SweepStep(macs, front, next, mid, seen);
    }
  }

  lemma SweepChosen(macs: seq<Device>, front: seq<Device>, next: Device, mid: map<string, Device>, k: string)
    requires next.mac == "" && next.ip != "" && Expected(macs, front, mid) && SameIp(mid, k, next.ip)
    requires forall m :: FirstIp(macs, m) != "" <==> HasMac(macs, m)
    ensures Expected(macs, front + [next], mid[k := MergeFields(mid[k], next)])
  {
    hide HasMac, HasIp, FirstIp, Claimed;
    Longer(front, next);
    assert mid[k].mac == "" || mid[k].mac == k;
    if HasMac(macs, k) {
      ClaimedBy(macs, k);
    }
  }

  lemma ClaimedBy(macs: seq<Device>, m: string)
    requires m != ""
    ensures Claimed(macs, FirstIp(macs, m))
  {
  }

  lemma SweepPlaced(macs: seq<Device>, front: seq<Device>, next: Device, mid: map<string, Device>)
    requires next.mac == "" && next.ip != "" && Expected(macs, front, mid) && forall k :: !SameIp(mid, k, next.ip)
    requires forall m :: FirstIp(macs, m) != "" <==> HasMac(macs, m)
    ensures Expected(macs, front + [next], Place(mid, next))
  {
    hide HasMac, HasIp, FirstIp, Claimed;
    Longer(front, next);
    Unclaimed(macs, front, mid, next.ip);
    assert !SameIp(mid, next.ip, next.ip);
  }

  lemma Unclaimed(macs: seq<Device>, front: seq<Device>, mid: map<string, Device>, ip: string)
    requires ip != "" && Expected(macs, front, mid) && forall k :: !SameIp(mid, k, ip)
    requires forall m :: FirstIp(macs, m) != "" <==> HasMac(macs, m)
    ensures !Claimed(macs, ip)
  {
    hide HasMac, HasIp, FirstIp;
    forall m | m != "" ensures FirstIp(macs, m) != ip {
      assert !SameIp(mid, m, ip);
    }
  }

  lemma SweepStep(macs: seq<Device>, front: seq<Device>, next: Device, mid: map<string, Device>,
                  seen: map<string, Device>)
    requires RunOrder(macs, front + [next]) && Expected(macs, front, mid) && Step(mid, next, seen)
    ensures Expected(macs, front + [next], seen)
  {
    hide HasMac, HasIp, FirstIp, Expected, Place, MergeFields;
    assert (front + [next])[|front|] == next;
    forall m ensures FirstIp(macs, m) != "" <==> HasMac(macs, m) {
      FirstIpFound(macs, m);
    }
    if k: string :| SameIp(mid, k, next.ip) && seen == mid[k := MergeFields(mid[k], next)] {
      SweepChosen(macs, front, next, mid, k);
    } else {
      SweepPlaced(macs, front, next, mid);
    }
  }

  /** In the order of Run a swept IP is some entry's IP exactly when it is the first IP of some MAC
      address or is not itself the text of an observed MAC address. */
  lemma SweptCovered(macs: seq<Device>, bare: seq<Device>, seen: map<string, Device>, i: nat)
    requires RunOrder(macs, bare) && Reaches(map[], macs + bare, seen) && i < |bare|
    ensures (exists k :: SameIp(seen, k, bare[i].ip)) <==> Claimed(macs, bare[i].ip) || !HasMac(macs, bare[i].ip)
  {
    hide HasMac, FirstIp;
    SweepPhase(macs, bare, seen);
    var ip := bare[i].ip;
    assert HasIp(bare, ip);
    if Claimed(macs, ip) {
      var m :| m != "" && FirstIp(macs, m) == ip;
      FirstIpFound(macs, m);
      assert SameIp(seen, m, ip);
    } else if !HasMac(macs, ip) {
      assert SameIp(seen, ip, ip);
    } else {
      forall k | k in seen ensures seen[k].ip != ip {
        if HasMac(macs, k) {
          assert !(k != "" && FirstIp(macs, k) == ip);
        }
      }
    }
  }

  function Bare(ip: string): Device {
    Device("site", ip, "", "", "", "nmap-ping", 0, 0)
  }

  function Full(mac: string, ip: string): Device {
    Device("site", ip, mac, "", "", "arp", 0, 0)
  }

  /** In the program's order too a swept IP can be missing, when it is also the text of a MAC address
      seen at another IP. */
  lemma SweptMissing(x: string, y: string, seen: map<string, Device>)
    requires x != y && x != "" && y != "" && Reaches(map[], [Full(x, y)] + [Bare(x)], seen)
    ensures forall k :: !SameIp(seen, k, x)
  {
    var macs, bare := [Full(x, y)], [Bare(x)];
    OneMac(x, y);
    hide Reaches, FirstIp, HasMac, Claimed;
    SweptCovered(macs, bare, seen, 0);
  }

  lemma OneMac(x: string, y: string)
    requires x != y && x != ""
    ensures HasMac([Full(x, y)], x) && !Claimed([Full(x, y)], x)
  {
    var macs := [Full(x, y)];
    assert macs[..0] == [];
    assert forall m :: FirstIp(macs, m) == if m == x then y else "";
    assert macs[0].mac == x;
  }

  lemma LossStates(x: string, y: string, m: string)
    requires x != y && m != x && m != y && x != "" && y != "" && m != ""
    ensures var a, b, c, d := Bare(x), Full(m, x), Bare(y), Full(m, y);
            var s2 := map[m := MergeFields(b, a)];
      && Place(map[], a) == map[x := a] && Place(map[x := a], b) == s2
      && Place(s2, c) == s2[y := c] && Place(s2[y := c], d) == map[m := MergeFields(d, c)]
  {
  }

  /** In another order an IP can be lost, whichever it is: promoting the entry of the second IP
      overwrites the entry that held the first. */
  lemma PromotionLoses(x: string, y: string, m: string)
    requires x != y && m != x && m != y && x != "" && y != "" && m != ""
    ensures var obs := [Bare(x), Full(m, x), Bare(y), Full(m, y)];
      exists seen :: Reaches(map[], obs, seen) && seen.Keys == {m} && seen[m].ip == y
  {
    hide Place, MergeFields;
    var a, b, c, d := Bare(x), Full(m, x), Bare(y), Full(m, y);
    var s2 := map[m := MergeFields(b, a)];
    var s3 := s2[y := c];
    var s4 := map[m := MergeFields(d, c)];
    LossStates(x, y, m);
    MergedIp(b, a);
    MergedIp(d, c);
    assert [] + [a] == [a] && [a] + [b] == [a, b] && [a, b] + [c] == [a, b, c] && [a, b, c] + [d] == [a, b, c, d];
    Grows(map[], [], map[], a, map[x := a]);
    Grows(map[], [a], map[x := a], b, s2);
    forall k ensures !SameIp(s2, k, y) {
    }
    Grows(map[], [a, b], s2, c, s3);
    Grows(map[], [a, b, c], s3, d, s4);
    assert s4.Keys == {m};
  }

  lemma MergedIp(current: Device, next: Device)
    requires current.ip != ""
    ensures MergeFields(current, next).ip == current.ip
  {
  }
}
