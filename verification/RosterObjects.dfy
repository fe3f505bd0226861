/**
  The rosters as the objects they are: founders' rosters share their `Entry`
  objects, and `Retire` changes them in place.
 */
module RosterObjects {
  import opened Basics
  import opened KeyOrder
  import opened Numbering

  class Entry {
    var key: Option<Key>
    var prefix: Option<Bytes>

    constructor (key: Option<Key>, prefix: Option<Bytes>)
      ensures this.key == key && this.prefix == prefix
    {
      this.key, this.prefix := key, prefix;
    }

    function Shown(): Place
      reads this
    {
      Place(key, prefix)
    }
  }

  function ShownIn(roster: map<nat, Entry>): map<nat, Place>
    reads roster.Values
  {
    map index: nat | index in roster :: roster[index].Shown()
  }

  function AddTo(roster: map<nat, Entry>, index: nat, entry: Entry): (grown: map<nat, Entry>)
    ensures grown.Values <= roster.Values + {entry}
  {
    roster[index := entry]
  }

  lemma RosterMore(sorted: seq<Key>, n: nat)
    requires n < |sorted|
    ensures RosterOf(sorted[..n + 1]) == RosterOf(sorted[..n])[n := Place(Some(sorted[n]), None)]
  {}

  lemma ShownMore(roster: map<nat, Entry>, index: nat, entry: Entry)
    ensures ShownIn(AddTo(roster, index, entry)) == ShownIn(roster)[index := entry.Shown()]
  {}

  lemma FoundedFirst(r: Rolls, founders: seq<Key>)
    ensures Founded(r, founders, 0) == r
  {}

  lemma FoundedNext(r: Rolls, founders: seq<Key>, n: nat)
    requires n < |founders|
    ensures
      var before := Founded(r, founders, n);
      Founded(r, founders, n + 1) ==
      before.(entries := before.entries[founders[n] := RosterOf(Sorted(founders))],
              keys := Learnt(before.keys, founders[n]))
  {}

  class Rosters {
    var entries: map<Key, map<nat, Entry>>
    var started: map<Key, Start>
    var introductions: map<Key, map<Bytes, Key>>
    var keys: seq<Key>

    /** Every `Entry` in any roster. */
    ghost var repr: set<Entry>

    ghost predicate Valid()
      reads this`entries, this`repr
    {
      forall owner | owner in entries :: entries[owner].Values <= repr
    }

    function Places(): map<Key, map<nat, Place>>
      requires Valid()
      reads this`entries, this`repr, repr
    {
      map owner | owner in entries :: ShownIn(entries[owner])
    }

    function View(): Rolls
      requires Valid()
      reads this, repr
    {
      Rolls(Places(), started, introductions, keys)
    }

    constructor ()
      ensures Valid() && View() == EMPTY && repr == {}
    {
      entries, started, introductions, keys, repr := map[], map[], map[], [], {};
    }

    method Learn(key: Key)
      requires Valid()
      modifies this`keys
      ensures Valid() && View() == old(View()).(keys := Learnt(old(keys), key))
    {
      if key !in keys {
        keys := keys + [key];
      }
    }

    method Number(owner: Key, index: nat, entry: Entry)
      requires Valid()
      modifies this`entries, this`repr
      ensures Valid() && repr == old(repr) + {entry}
      ensures View() == Numbered(old(View()), owner, index, old(entry.Shown()))
    {
      SetDefault(owner, index, entry);
    }

    method SetDefault(owner: Key, index: nat, entry: Entry)
      requires Valid()
      modifies this`entries, this`repr
      ensures Valid() && repr == old(repr) + {entry}
      ensures Places() == EntriesNumbered(old(Places()), owner, index, old(entry.Shown()))
    {
      Admit(entry);
      var roster: map<nat, Entry> := if owner in entries then entries[owner] else map[];
      assert owner in entries ==> Places()[owner] == ShownIn(roster);
      if index !in roster {
        ShownMore(roster, index, entry);
        roster := AddTo(roster, index, entry);
      }
      Seat(owner, roster);
    }

    ghost method Admit(entry: Entry)
      requires Valid()
      modifies this`repr
      ensures Valid() && repr == old(repr) + {entry} && Places() == old(Places())
    {
      repr := repr + {entry};
    }

    method Begin(newcomer: Key, introducer: Key)
      requires Valid()
      modifies this`started
      ensures Valid() && View() == Begun(old(View()), newcomer, introducer)
    {
      var place := IndexOf(View(), introducer, newcomer);
      if place.Some? {
        started := started[newcomer := Start(introducer, place.value)];
      }
    }

    /** A new entry for each of `sorted`, at its index. */
    method Enumerated(sorted: seq<Key>) returns (roster: map<nat, Entry>)
      ensures fresh(roster.Values) && ShownIn(roster) == RosterOf(sorted)
    {
      roster := map[];
      for n := 0 to |sorted|
        invariant fresh(roster.Values) && ShownIn(roster) == RosterOf(sorted[..n])
      {
        var entry := new Entry(Some(sorted[n]), None);
        ShownMore(roster, n, entry);
        RosterMore(sorted, n);
        roster := AddTo(roster, n, entry);
      }
      assert sorted[..|sorted|] == sorted;
    }

    /** A founder's roster is the shared one, and the founder is known. */
    method Settle(founder: Key, roster: map<nat, Entry>)
      requires Valid() && roster.Values <= repr
      modifies this`entries, this`keys
      ensures Valid()
      ensures View() == old(View()).(entries := old(Places())[founder := ShownIn(roster)],
                                     keys := Learnt(old(keys), founder))
    {
      Seat(founder, roster);
      Learn(founder);
    }

    method Found(founders: seq<Key>)
      requires Valid()
      modifies this
      ensures Valid() && old(repr) <= repr && fresh(repr - old(repr))
      ensures View() == Founded(old(View()), founders, |founders|)
    {
      hide Sorted, RosterOf, Learnt, Founded;
      var sorted := Sorted(founders);
      var roster := Enumerated(sorted);
      FoundedFirst(View(), founders);
      repr := repr + roster.Values;
      for n := 0 to |founders|
        invariant Valid() && repr == old(repr) + roster.Values && ShownIn(roster) == RosterOf(sorted)
        invariant View() == Founded(old(View()), founders, n)
      {
        Settle(founders[n], roster);
        FoundedNext(old(View()), founders, n);
      }
    }

    method Seat(founder: Key, roster: map<nat, Entry>)
      requires Valid() && roster.Values <= repr
      modifies this`entries
      ensures Valid() && Places() == old(Places())[founder := ShownIn(roster)]
    {
      entries := entries[founder := roster];
    }

    method Retire(member: Key, token: Key)
      requires Valid()
      requires token !in entries && token !in started && token !in introductions
      modifies this, repr
      ensures Valid() && repr == old(repr)
      ensures View() == Retired(old(View()), member, token)
    {
      ReplacePlaces(member, token);
      RenameRest(member, token);
    }

    method RenameRest(member: Key, token: Key)
      requires Valid() && token !in started && token !in introductions
      modifies this`started, this`introductions, this`keys
      ensures Valid()
      ensures View() == Rolls(old(Places()), StartedRetired(old(started), member, token),
                              IntroductionsRetired(old(introductions), member, token), Without(old(keys), member))
    {
      started := StartedRetired(started, member, token);
      introductions := IntroductionsRetired(introductions, member, token);
      keys := Without(keys, member);
    }

    /** The token takes the member's places, in every roster and its own. */
    method ReplacePlaces(member: Key, token: Key)
      requires Valid() && token !in entries
      modifies this`entries, repr
      ensures Valid() && Places() == EntriesRetired(old(keys), old(Places()), member, token)
    {
      ghost var before := Places();
      ReplaceAll(member, token);
      assert forall owner | owner in entries ::
          ShownIn(entries[owner]) == RosterRetired(keys, before[owner], member, token);
      MoveRoster(before, member, token);
    }

    /** The member's own roster becomes the token's. */
    method MoveRoster(ghost before: map<Key, map<nat, Place>>, member: Key, token: Key)
      requires Valid() && token !in before && before.Keys == entries.Keys
      requires forall owner | owner in entries ::
                 ShownIn(entries[owner]) == RosterRetired(keys, before[owner], member, token)
      modifies this`entries
      ensures Valid() && Places() == EntriesRetired(keys, before, member, token)
    {
      if member in entries {
        entries := (entries - {member})[token := entries[member]];
      }
    }

    /** Every entry of every roster is visited, a shared one several times. */
    method ReplaceAll(member: Key, token: Key)
      requires Valid()
      modifies repr
      ensures forall owner | owner in entries ::
                ShownIn(entries[owner]) == RosterRetired(keys, old(ShownIn(entries[owner])), member, token)
    {
      ghost var done: set<Entry> := {};
      var owners := entries.Keys;
      while owners != {}
        invariant owners <= entries.Keys
        invariant done <= repr && forall entry | entry in repr ::
            entry.Shown() ==
            (if entry in done then Replaced(keys, old(entry.Shown()), member, token) else old(entry.Shown()))
        invariant forall owner | owner in entries.Keys - owners :: entries[owner].Values <= done
        decreases owners
      {
        var owner :| owner in owners;
        var indexes := entries[owner].Keys;
        while indexes != {}
          invariant indexes <= entries[owner].Keys
          invariant done <= repr && forall entry | entry in repr ::
              entry.Shown() ==
              (if entry in done then Replaced(keys, old(entry.Shown()), member, token) else old(entry.Shown()))
          invariant forall o | o in entries.Keys - owners :: entries[o].Values <= done
          invariant forall index: nat | index in entries[owner].Keys - indexes :: entries[owner][index] in done
          decreases indexes
        {
          var index :| index in indexes;
          var entry := entries[owner][index];
          if Holds(keys, entry.Shown(), member) {
            entry.key, entry.prefix := Some(token), None;
          }
          done := done + {entry};
          indexes := indexes - {index};
        }
        owners := owners - {owner};
      }
    }
  }
}
