/** The target set the record builder works on (`assistant.Targets`): a map
    from geo tag to an ordered list of IP literals. Go iterates such a map in
    no fixed order; here the entries are a sequence in insertion order, and
    that order is the order `GetIPs` reads them in. */
module Targets {

  datatype Target = Target(tag: string, ips: seq<string>)

  type Targets = seq<Target>

  /** The sequence is a map: no geo tag appears twice. */
  predicate UniqueTags(ts: Targets) {
    ts == [] || (ts[0].tag !in Tags(ts[1..]) && UniqueTags(ts[1..]))
  }

  /** The geo tags present (the map's key set). */
  function Tags(ts: Targets): set<string> {
    if ts == [] then {} else {ts[0].tag} + Tags(ts[1..])
  }

  /** `assistant.NewTargets()`. */
  function NewTargets(): Targets {
    []
  }

  /** Go's `len(targets)`: the number of geo tags, whether or not their lists are empty. */
  function Len(ts: Targets): nat {
    |ts|
  }

  /** The IPs under `tag`; a tag that is absent has none. */
  function Lookup(ts: Targets, tag: string): seq<string> {
    if ts == [] then []
    else if ts[0].tag == tag then ts[0].ips
    else Lookup(ts[1..], tag)
  }

  /** `GetIPs`: every entry's IPs, entry after entry. */
  function GetIPs(ts: Targets): seq<string> {
    if ts == [] then [] else ts[0].ips + GetIPs(ts[1..])
  }

  /** `Append(tag, ips)`: extends the list under `tag`, creating the entry at the end when absent. */
  function Append(ts: Targets, tag: string, ips: seq<string>): Targets {
    if ts == [] then [Target(tag, ips)]
    else if ts[0].tag == tag then [Target(tag, ts[0].ips + ips)] + ts[1..]
    else [ts[0]] + Append(ts[1..], tag, ips)
  }

  /** `AppendTargets(other)`: appends every entry of `other`, in its order. */
  function AppendTargets(ts: Targets, other: Targets): Targets
    decreases |other|
  {
    if other == [] then ts else AppendTargets(Append(ts, other[0].tag, other[0].ips), other[1..])
  }

  /** `Append` adds `tag` to the key set and keeps the tags unique; `len` grows only for a new tag. */
  lemma {:induction false} AppendTags(ts: Targets, tag: string, ips: seq<string>)
    ensures Tags(Append(ts, tag, ips)) == Tags(ts) + {tag}
    ensures Len(Append(ts, tag, ips)) == if tag in Tags(ts) then Len(ts) else Len(ts) + 1
    ensures UniqueTags(ts) ==> UniqueTags(Append(ts, tag, ips))
  {
    if ts != [] && ts[0].tag != tag {
      AppendTags(ts[1..], tag, ips);
      assert Append(ts, tag, ips)[1..] == Append(ts[1..], tag, ips);
    }
  }

  /** After `Append`, the list under `tag` ends with `ips`; every other list is untouched. */
  lemma {:induction false} AppendLookup(ts: Targets, tag: string, ips: seq<string>, k: string)
    ensures Lookup(Append(ts, tag, ips), k) == Lookup(ts, k) + (if k == tag then ips else [])
  {
    if ts != [] && ts[0].tag != tag {
      AppendLookup(ts[1..], tag, ips, k);
      assert Append(ts, tag, ips)[1..] == Append(ts[1..], tag, ips);
    }
  }

  /** `Append` adds exactly `ips` to what `GetIPs` reads. */
  lemma {:induction false} AppendIPs(ts: Targets, tag: string, ips: seq<string>)
    ensures multiset(GetIPs(Append(ts, tag, ips))) == multiset(GetIPs(ts)) + multiset(ips)
  {
    var r := Append(ts, tag, ips);
    if ts == [] {
      assert GetIPs(r) == ips + [];
    } else if ts[0].tag == tag {
      assert r[1..] == ts[1..];
      calc {
        multiset(GetIPs(r));
        multiset((ts[0].ips + ips) + GetIPs(ts[1..]));
        multiset(ts[0].ips) + multiset(ips) + multiset(GetIPs(ts[1..]));
      }
    } else {
      AppendIPs(ts[1..], tag, ips);
      assert r[1..] == Append(ts[1..], tag, ips);
      calc {
        multiset(GetIPs(r));
        multiset(ts[0].ips + GetIPs(Append(ts[1..], tag, ips)));
        multiset(ts[0].ips) + multiset(GetIPs(Append(ts[1..], tag, ips)));
      }
    }
  }

  /** Appending under a new tag puts `ips` at the end of what `GetIPs` reads. */
  lemma {:induction false} AppendNewTagIPs(ts: Targets, tag: string, ips: seq<string>)
    requires tag !in Tags(ts)
    ensures GetIPs(Append(ts, tag, ips)) == GetIPs(ts) + ips
  {
    var r := Append(ts, tag, ips);
    if ts == [] {
      assert GetIPs(r) == ips + [];
    } else {
      AppendNewTagIPs(ts[1..], tag, ips);
      assert r[1..] == Append(ts[1..], tag, ips);
      assert GetIPs(r) == ts[0].ips + (GetIPs(ts[1..]) + ips);
    }
  }

  /** `AppendTargets` unites the key sets and keeps the tags unique. */
  lemma {:induction false} AppendTargetsTags(ts: Targets, other: Targets)
    ensures Tags(AppendTargets(ts, other)) == Tags(ts) + Tags(other)
    ensures UniqueTags(ts) ==> UniqueTags(AppendTargets(ts, other))
    decreases |other|
  {
    if other != [] {
      AppendTags(ts, other[0].tag, other[0].ips);
      AppendTargetsTags(Append(ts, other[0].tag, other[0].ips), other[1..]);
    }
  }

  /** After `AppendTargets`, each tag's list is its old list followed by the list `other` holds for it. */
  lemma {:induction false} AppendTargetsLookup(ts: Targets, other: Targets, k: string)
    requires UniqueTags(other)
    ensures Lookup(AppendTargets(ts, other), k) == Lookup(ts, k) + Lookup(other, k)
    decreases |other|
  {
    if other != [] {
      var next := Append(ts, other[0].tag, other[0].ips);
      AppendLookup(ts, other[0].tag, other[0].ips, k);
      AppendTargetsLookup(next, other[1..], k);
      if k == other[0].tag {
        AbsentTagHasNoIPs(other[1..], k);
      }
    }
  }

  /** `AppendTargets` adds exactly the IPs of `other` to what `GetIPs` reads. */
  lemma {:induction false} AppendTargetsIPs(ts: Targets, other: Targets)
    ensures multiset(GetIPs(AppendTargets(ts, other))) == multiset(GetIPs(ts)) + multiset(GetIPs(other))
    decreases |other|
  {
    if other != [] {
      var next := Append(ts, other[0].tag, other[0].ips);
      AppendIPs(ts, other[0].tag, other[0].ips);
      AppendTargetsIPs(next, other[1..]);
    }
  }

  lemma {:induction false} AbsentTagHasNoIPs(ts: Targets, tag: string)
    requires tag !in Tags(ts)
    ensures Lookup(ts, tag) == []
  {
    if ts != [] {
      AbsentTagHasNoIPs(ts[1..], tag);
    }
  }

  /** With unique tags, the IPs `GetIPs` reads are exactly those stored under some tag. */
  lemma {:induction false} GetIPsMembers(ts: Targets, ip: string)
    requires UniqueTags(ts)
    ensures ip in GetIPs(ts) <==> exists tag :: tag in Tags(ts) && ip in Lookup(ts, tag)
  {
    if ts != [] {
      var rest := ts[1..];
      GetIPsMembers(rest, ip);
      assert GetIPs(ts) == ts[0].ips + GetIPs(rest);
      if ip in GetIPs(ts) {
        if ip in ts[0].ips {
          assert Lookup(ts, ts[0].tag) == ts[0].ips;
          assert ts[0].tag in Tags(ts);
          assert exists tag :: tag in Tags(ts) && ip in Lookup(ts, tag);
        } else {
          var tag :| tag in Tags(rest) && ip in Lookup(rest, tag);
          assert tag != ts[0].tag;
          assert tag in Tags(ts) && ip in Lookup(ts, tag);
        }
      } else {
        assert ip !in ts[0].ips && ip !in GetIPs(rest);
        forall tag | tag in Tags(ts) ensures ip !in Lookup(ts, tag) {
          if tag != ts[0].tag {
            assert tag in Tags(rest) && Lookup(ts, tag) == Lookup(rest, tag);
            assert ip !in Lookup(rest, tag);
          } else {
            assert Lookup(ts, tag) == ts[0].ips;
            assert ip !in Lookup(ts, tag);
          }
        }
      }
    }
  }

  /** Which IPs `GetIPs` returns depends only on what is stored under each tag, not on the order
      in which the tags were inserted. */
  lemma GetIPsDependOnLookupOnly(ts1: Targets, ts2: Targets, ip: string)
    requires UniqueTags(ts1) && UniqueTags(ts2)
    requires forall tag :: Lookup(ts1, tag) == Lookup(ts2, tag)
    ensures ip in GetIPs(ts1) <==> ip in GetIPs(ts2)
  {
    GetIPsMembers(ts1, ip);
    GetIPsMembers(ts2, ip);
    if ip in GetIPs(ts1) {
      var tag :| tag in Tags(ts1) && ip in Lookup(ts1, tag);
      if tag !in Tags(ts2) {
        AbsentTagHasNoIPs(ts2, tag);
      }
    }
    if ip in GetIPs(ts2) {
      var tag :| tag in Tags(ts2) && ip in Lookup(ts2, tag);
      if tag !in Tags(ts1) {
        AbsentTagHasNoIPs(ts1, tag);
      }
    }
  }
}
