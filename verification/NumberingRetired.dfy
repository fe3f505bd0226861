/**
  Retiring a member: its key is forgotten and a token stands in its places. What
  resolved before resolves to the same member after, under its new name.
 */
module NumberingRetired {
  import opened Basics
  import opened KeyOrder
  import opened Numbering
  import opened NumberingAgreement

  /** An entry names its member by a key or by a prefix, never by both. */
  predicate OneName(place: Place) {
    place.key.None? || place.prefix.None?
  }

  ghost predicate WellKept(r: Rolls) {
    Distinct(r.keys) && forall owner, index: nat | HasEntry(r, owner, index) :: OneName(r.entries[owner][index])
  }

  /** The token occurs nowhere yet. */
  ghost predicate Fresh(r: Rolls, token: Key) {
    && token !in r.keys && token !in r.entries && token !in r.started
    && (forall owner | owner in r.started :: r.started[owner].introducer != token)
    && token !in r.introductions
    && (forall who, box | who in r.introductions && box in r.introductions[who] :: r.introductions[who][box] != token)
    && (forall owner, index: nat | HasEntry(r, owner, index) :: r.entries[owner][index].key != Some(token))
  }

  /** `key` occurs nowhere but in prefixes. */
  ghost predicate Forgotten(r: Rolls, key: Key) {
    Fresh(r, key)
  }

  /** Announcements keep to that, and name each key known once. */
  lemma ToldWellKept(r: Rolls, news: News)
    requires WellKept(r) && (news.Numbers? ==> OneName(news.place))
    ensures WellKept(Told(r, news))
  {
    if news.Founders? {
      FoundedWellKept(r, news.founders, |news.founders|);
    } else {
      var r' := Told(r, news);
      forall owner, index: nat | HasEntry(r', owner, index)
        ensures OneName(r'.entries[owner][index])
      {
        if !NumbersAt(news, owner, index) || HasEntry(r, owner, index) {
          assert HasEntry(r, owner, index) && OneName(r.entries[owner][index]);
        }
      }
    }
  }

  lemma {:induction false} FoundedWellKept(r: Rolls, founders: seq<Key>, n: nat)
    requires WellKept(r) && n <= |founders|
    ensures WellKept(Founded(r, founders, n))
    decreases n
  {
    if n > 0 {
      FoundedWellKept(r, founders, n - 1);
      var before, r' := Founded(r, founders, n - 1), Founded(r, founders, n);
      forall owner, index: nat | HasEntry(r', owner, index)
        ensures OneName(r'.entries[owner][index])
      {
        if owner != founders[n - 1] {
          assert HasEntry(before, owner, index) && OneName(before.entries[owner][index]);
        }
      }
    }
  }

  lemma {:induction false} WithoutIs(keys: seq<Key>, member: Key)
    ensures forall key :: key in Without(keys, member) <==> key in keys && key != member
    ensures Distinct(keys) ==> Distinct(Without(keys, member))
  {
    if keys != [] {
      WithoutIs(keys[1..], member);
      var rest := Without(keys[1..], member);
      assert keys == [keys[0]] + keys[1..];
      if Distinct(keys) {
        assert forall j | 0 <= j < |rest| :: rest[j] in rest;
        assert forall j | 0 <= j < |keys[1..]| :: keys[1..][j] == keys[j + 1];
      }
    }
  }

  /** A prefix that named somebody else still does; one that named nobody
      names `key` now exactly if it began `member`'s key and `key` only. */
  lemma NamedWithout(keys: seq<Key>, member: Key, prefix: Bytes, key: Key)
    requires Distinct(keys) && Named(keys, prefix) != Some(member)
    ensures Named(Without(keys, member), prefix) == Some(key) <==>
            Named(keys, prefix) == Some(key) || OnlyBeside(keys, prefix, member, key)
  {
    WithoutIs(keys, member);
    NamedIs(keys, prefix, key);
    NamedIs(keys, prefix, member);
    NamedIs(Without(keys, member), prefix, key);
  }

  /** The prefix begins two keys: `member` and `key`. */
  ghost predicate OnlyBeside(keys: seq<Key>, prefix: Bytes, member: Key, key: Key) {
    && key != member && key in keys && member in keys
    && forall other | other in keys :: prefix <= other <==> other == member || other == key
  }

  /** The place is ambiguous, and would be `key`'s were it not for `member`. */
  ghost predicate Disambiguates(keys: seq<Key>, place: Place, member: Key, key: Key) {
    && place.key.None? && place.prefix.Some? && place.prefix.value != []
    && OnlyBeside(keys, place.prefix.value, member, key)
  }

  lemma HeldAfter(keys: seq<Key>, place: Place, member: Key, token: Key)
    requires Distinct(keys) && OneName(place) && token != member
    ensures
      var before := Held(keys, place);
      var after := Held(Without(keys, member), Replaced(keys, place, member, token));
      && (before.Some? ==> after == Some(Renamed(before.value, member, token)))
      && (before.None? ==> forall key :: Disambiguates(keys, place, member, key) <==> after == Some(key))
  {
    WithoutIs(keys, member);
    if place.key.None? && place.prefix.Some? && place.prefix.value != [] {
      var prefix := place.prefix.value;
      NamedIs(keys, prefix, member);
      if Named(keys, prefix) != Some(member) {
        forall key
          ensures Named(Without(keys, member), prefix) == Some(key) <==>
                  Named(keys, prefix) == Some(key) || OnlyBeside(keys, prefix, member, key)
        {
          NamedWithout(keys, member, prefix, key);
        }
      }
    }
  }

  // Resolution after.

  function RenamedAll(seen: set<Key>, member: Key, token: Key): set<Key> {
    set key | key in seen :: Renamed(key, member, token)
  }

  lemma EntriesAfter(r: Rolls, member: Key, token: Key, owner: Key, index: nat)
    requires token !in r.entries && owner != token && token != member
    ensures
      var entries', owner' := EntriesRetired(r.keys, r.entries, member, token), Renamed(owner, member, token);
      && (owner' in entries' && index in entries'[owner'] <==> HasEntry(r, owner, index))
      && (HasEntry(r, owner, index) ==>
            entries'[owner'][index] == Replaced(r.keys, r.entries[owner][index], member, token))
  {}

  lemma StartedAfter(started: map<Key, Start>, member: Key, token: Key, owner: Key)
    requires token !in started && owner != token && token != member
    ensures
      var started', owner' := StartedRetired(started, member, token), Renamed(owner, member, token);
      && (owner' in started' <==> owner in started)
      && (owner in started ==> started'[owner'] == StartRetired(started[owner], member, token))
  {}

  lemma {:induction false} SourceAfter(r: Rolls, member: Key, token: Key, owner: Key, index: nat, seen: set<Key>)
    requires Fresh(r, token) && owner != token && token != member && token !in seen
    ensures
      SourceFrom(Retired(r, member, token), Renamed(owner, member, token), index, RenamedAll(seen, member, token)) ==
      match SourceFrom(r, owner, index, seen)
      case None => None
      case Some(source) => Some(Renamed(source, member, token))
    ensures SourceFrom(r, owner, index, seen) != Some(token)
    decreases r.started.Keys - seen
  {
    EntriesAfter(r, member, token, owner, index);
    StartedAfter(r.started, member, token, owner);
    var owner', seen' := Renamed(owner, member, token), RenamedAll(seen, member, token);
    assert owner' in seen' <==> owner in seen by {
      if owner' in seen' {
        var key :| key in seen && Renamed(key, member, token) == owner';
        assert key == owner;
      }
    }
    if !HasEntry(r, owner, index) && owner in r.started && index <= r.started[owner].at && owner !in seen {
      assert seen' + {owner'} == RenamedAll(seen + {owner}, member, token);
      SourceAfter(r, member, token, r.started[owner].introducer, index, seen + {owner});
    }
  }

  /** What the place that decides `index` of `owner` held before. */
  ghost predicate WasAmbiguous(r: Rolls, member: Key, owner: Key, index: nat, key: Key) {
    var source := Source(r, owner, index);
    source.Some? && Disambiguates(r.keys, r.entries[source.value][index], member, key)
  }

  /** Retiring a member keeps every place that resolved, under its new name; a
      place that did not resolve does so after exactly if its prefix began the
      member's key and one other, and then it is the other's. */
  lemma RetiringKeepsPlaces(r: Rolls, member: Key, token: Key, owner: Key, index: nat)
    requires WellKept(r) && Fresh(r, token) && owner != token && token != member
    ensures
      var before := Resolve(r, owner, index);
      var after := Resolve(Retired(r, member, token), Renamed(owner, member, token), index);
      && (before.Some? ==> after == Some(Renamed(before.value, member, token)))
      && (before.None? ==> forall key :: WasAmbiguous(r, member, owner, index, key) <==> after == Some(key))
  {
    var source := Source(r, owner, index);
    ResolveAfter(r, member, token, owner, index);
    SourceDecides(r, owner, index, {});
    if source.Some? {
      HeldAfter(r.keys, r.entries[source.value][index], member, token);
    }
  }

  lemma ResolveAfter(r: Rolls, member: Key, token: Key, owner: Key, index: nat)
    requires Fresh(r, token) && owner != token && token != member
    ensures
      var r', source := Retired(r, member, token), Source(r, owner, index);
      && (Source(r', Renamed(owner, member, token), index).Some? <==> source.Some?)
      && Resolve(r', Renamed(owner, member, token), index) ==
         if source.None? then None
         else Held(Without(r.keys, member), Replaced(r.keys, r.entries[source.value][index], member, token))
  {
    var r', owner' := Retired(r, member, token), Renamed(owner, member, token);
    assert RenamedAll({}, member, token) == {};
    SourceAfter(r, member, token, owner, index, {});
    SourceDecides(r', owner', index, {});
    var source := Source(r, owner, index);
    if source.Some? {
      EntriesAfter(r, member, token, source.value, index);
    }
  }

  lemma ResolvesToNoToken(r: Rolls, token: Key, owner: Key, index: nat)
    requires WellKept(r) && Fresh(r, token)
    ensures Resolve(r, owner, index) != Some(token)
  {
    SourceDecides(r, owner, index, {});
    var source := Source(r, owner, index);
    if source.Some? {
      var place := r.entries[source.value][index];
      if place.prefix.Some? {
        NamedIs(r.keys, place.prefix.value, token);
      }
    }
  }

  /** Every owner keeps the indexes it is known to have assigned, and its size. */
  lemma RetiringKeepsIndexes(r: Rolls, member: Key, token: Key, owner: Key)
    requires Fresh(r, token) && owner != token && token != member
    ensures
      var r', owner' := Retired(r, member, token), Renamed(owner, member, token);
      && Known(r', owner').Keys == Known(r, owner).Keys
      && Size(r', owner') == Size(r, owner)
  {
    forall index: nat
      ensures index in Known(Retired(r, member, token), Renamed(owner, member, token)) <==> index in Known(r, owner)
      ensures Reaches(Retired(r, member, token), Renamed(owner, member, token), index) <==> Reaches(r, owner, index)
    {
      IndexAfter(r, member, token, owner, index);
    }
    SizeIs(r, owner, Retired(r, member, token), Renamed(owner, member, token));
  }

  lemma IndexAfter(r: Rolls, member: Key, token: Key, owner: Key, index: nat)
    requires Fresh(r, token) && owner != token && token != member
    ensures
      var r', owner' := Retired(r, member, token), Renamed(owner, member, token);
      && (index in Known(r', owner') <==> index in Known(r, owner))
      && (Reaches(r', owner', index) <==> Reaches(r, owner, index))
  {
    ResolveAfter(r, member, token, owner, index);
    KnownExactly(r, owner, index);
    KnownExactly(Retired(r, member, token), Renamed(owner, member, token), index);
  }

  lemma SizeIs(r: Rolls, owner: Key, r': Rolls, owner': Key)
    requires forall index: nat :: Reaches(r', owner', index) <==> Reaches(r, owner, index)
    ensures Size(r', owner') == Size(r, owner)
  {}

  /** Afterwards the member is no key, owner, introducer or introduced, holds
      no entry by its key, and no place of anyone resolves to it. */
  lemma RetiringForgets(r: Rolls, member: Key, token: Key, owner: Key, index: nat)
    requires WellKept(r) && Fresh(r, token) && token != member
    ensures Forgotten(Retired(r, member, token), member) && WellKept(Retired(r, member, token))
    ensures Resolve(Retired(r, member, token), owner, index) != Some(member)
  {
    WithoutIs(r.keys, member);
    EntriesForgotten(r, member, token);
    StartsForgotten(r.started, member, token);
    IntroductionsForgotten(r.introductions, member, token);
    var r' := Retired(r, member, token);
    FreshIn(r', r'.keys, r'.entries, r'.started, r'.introductions, member);
    ResolvesToNoToken(r', member, owner, index);
  }

  lemma FreshIn(r: Rolls, keys: seq<Key>, entries: map<Key, map<nat, Place>>, started: map<Key, Start>,
                introductions: map<Key, map<Bytes, Key>>, key: Key)
    requires r == Rolls(entries, started, introductions, keys) && Distinct(keys)
    requires key !in keys && key !in entries && key !in started && key !in introductions
    requires forall owner | owner in started :: started[owner].introducer != key
    requires forall who: Key, box: Bytes | who in introductions && box in introductions[who] ::
               introductions[who][box] != key
    requires forall owner: Key, index: nat | owner in entries && index in entries[owner] ::
               entries[owner][index].key != Some(key) && OneName(entries[owner][index])
    ensures Fresh(r, key) && WellKept(r)
  {}

  lemma EntriesForgotten(r: Rolls, member: Key, token: Key)
    requires WellKept(r) && Fresh(r, token) && token != member
    ensures
      var entries: map<Key, map<nat, Place>> := EntriesRetired(r.keys, r.entries, member, token);
      && member !in entries
      && forall owner: Key, index: nat | owner in entries && index in entries[owner] ::
        entries[owner][index].key != Some(member) && OneName(entries[owner][index])
  {}

  lemma StartsForgotten(started: map<Key, Start>, member: Key, token: Key)
    requires token != member && token !in started
    requires forall owner | owner in started :: started[owner].introducer != token
    ensures
      var after := StartedRetired(started, member, token);
      member !in after && forall owner | owner in after :: after[owner].introducer != member
  {}

  lemma IntroductionsForgotten(introductions: map<Key, map<Bytes, Key>>, member: Key, token: Key)
    requires token != member && token !in introductions
    ensures
      var after := IntroductionsRetired(introductions, member, token);
      && member !in after
      && forall who: Key, box: Bytes | who in after && box in after[who] :: after[who][box] != member
  {}

  function IntroducedAt(r: Rolls, who: Key, box: Bytes): Option<Key> {
    if who in r.introductions && box in r.introductions[who] then Some(r.introductions[who][box]) else None
  }

  function StartOf(r: Rolls, owner: Key): Option<Start> {
    if owner in r.started then Some(r.started[owner]) else None
  }

  /** Nothing but the name changes: every introduction and every start is there
      under the new name, with the new name in it, and every entry too, the
      member's own naming the token. */
  lemma RetiringRenames(r: Rolls, member: Key, token: Key, owner: Key, box: Bytes, index: nat)
    requires WellKept(r) && Fresh(r, token) && owner != token && token != member
    ensures
      var r', owner' := Retired(r, member, token), Renamed(owner, member, token);
      && IntroducedAt(r', owner', box) == IntroducedAt(r, owner, box).Map((key: Key) => Renamed(key, member, token))
      && StartOf(r', owner') ==
         StartOf(r, owner).Map((start: Start) => Start(Renamed(start.introducer, member, token), start.at))
      && (HasEntry(r', owner', index) <==> HasEntry(r, owner, index))
      && (HasEntry(r, owner, index) ==>
            r'.entries[owner'][index] ==
            if Held(r.keys, r.entries[owner][index]) == Some(member) then Place(Some(token), None)
            else r.entries[owner][index])
  {
    EntriesAfter(r, member, token, owner, index);
    StartedAfter(r.started, member, token, owner);
    IntroductionsAfter(r.introductions, member, token, owner, box);
    hide EntriesRetired, StartedRetired, IntroductionsRetired, Fresh;
    assert HasEntry(r, owner, index) ==> OneName(r.entries[owner][index]);
  }

  lemma IntroductionsAfter(introductions: map<Key, map<Bytes, Key>>, member: Key, token: Key, who: Key, box: Bytes)
    requires token !in introductions && who != token && token != member
    ensures
      var after, who' := IntroductionsRetired(introductions, member, token), Renamed(who, member, token);
      && (who' in after && box in after[who'] <==> who in introductions && box in introductions[who])
      && (who in introductions && box in introductions[who] ==>
            after[who'][box] == Renamed(introductions[who][box], member, token))
  {}
}
