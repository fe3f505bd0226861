/**
  Rosters over time: announcements heard and members retired, in any order. A
  place still resolves to nobody or to whom its owner numbered there, by its key
  or by a token that stands for it since it was retired.
 */
module NumberingOverTime {
  import opened Basics
  import opened KeyOrder
  import opened Numbering
  import opened NumberingAgreement
  import NR = NumberingRetired

  datatype Change = Hears(news: News) | Retires(member: Key, token: Key)

  /** What a member knows, and whom each token it gave out stands for. */
  datatype View = View(r: Rolls, names: Names)

  /** The token is new to the group and to the view. */
  predicate NewToken(t: Truth, names: Names, token: Key) {
    && token !in names && token !in t.members && token !in t.rosters && token !in t.joined
    && forall newcomer | newcomer in t.joined :: t.joined[newcomer].introducer != token
  }

  predicate Enabled(t: Truth, v: View, change: Change) {
    match change
    case Hears(news) => TrueNews(t, news)
    case Retires(member, token) => member in t.members && NewToken(t, v.names, token) && Retirable(v.r, token)
  }

  /** The token owns nothing in the view. */
  predicate Retirable(r: Rolls, token: Key) {
    token !in r.entries && token !in r.started && token !in r.introductions
  }

  function After(t: Truth, v: View, change: Change): View
    requires Enabled(t, v, change)
  {
    match change
    case Hears(news) => v.(r := Told(v.r, news))
    case Retires(member, token) => View(Retired(v.r, member, token), v.names[token := member])
  }

  predicate Possible(t: Truth, changes: seq<Change>)
    decreases |changes|, 0
  {
    changes == [] ||
    (Possible(t, changes[..|changes| - 1])
     && Enabled(t, Reached(t, changes[..|changes| - 1]), changes[|changes| - 1]))
  }

  function Reached(t: Truth, changes: seq<Change>): View
    requires Possible(t, changes)
    decreases |changes|, 1
  {
    if changes == [] then View(EMPTY, map[])
    else After(t, Reached(t, changes[..|changes| - 1]), changes[|changes| - 1])
  }

  // What every view keeps.

  ghost predicate Inv(t: Truth, v: View) {
    NamesAside(t, v.names) && Sound(t, v.names, v.r)
  }

  /** A name and what it becomes stand for one member. */
  lemma RenamedWho(t: Truth, names: Names, member: Key, token: Key, key: Key)
    requires names.Keys !! t.members && member in t.members && token !in names && key != token
    ensures Who(names[token := member], Renamed(key, member, token)) == Who(names, key)
  {}

  lemma ReplacedTrue(t: Truth, names: Names, keys: seq<Key>, place: Place, truth: Key, member: Key, token: Key)
    requires PlaceTrue(t, names, place, truth) && names.Keys !! t.members && Distinct(keys)
    requires member in t.members && token !in names && token !in t.members
    requires truth in t.members
    ensures PlaceTrue(t, names[token := member], Replaced(keys, place, member, token), truth)
  {
    if place.prefix.Some? {
      NamedIs(keys, place.prefix.value, member);
    }
  }

  /** Who held an entry or a start before. */
  lemma OriginWho(t: Truth, names: Names, owners: set<Key>, member: Key, token: Key, owner: Key)
    requires names.Keys !! t.members && member in t.members && token !in names && token !in owners
    requires owner in RenamedKeys(owners, member, token)
    ensures Origin(owner, member, token) in owners
    ensures Who(names[token := member], owner) == Who(names, Origin(owner, member, token))
  {}

  lemma EntriesTrue(t: Truth, names: Names, r: Rolls, member: Key, token: Key, owner: Key, index: nat)
    requires TrueRosters(t) && Sound(t, names, r) && NewToken(t, names, token) && Retirable(r, token)
    requires member in t.members && HasEntry(Retired(r, member, token), owner, index)
    ensures EntryTrue(t, names[token := member], Retired(r, member, token), owner, index)
  {
    var before := Origin(owner, member, token);
    OriginWho(t, names, r.entries.Keys, member, token, owner);
    assert HasEntry(r, before, index) && EntryTrue(t, names, r, before, index);
    ReplacedTrue(t, names, r.keys, r.entries[before][index], t.rosters[Who(names, before)][index], member, token);
  }

  lemma StartsTrue(t: Truth, names: Names, r: Rolls, member: Key, token: Key, owner: Key)
    requires TrueRosters(t) && Sound(t, names, r) && NewToken(t, names, token) && Retirable(r, token)
    requires member in t.members && owner in Retired(r, member, token).started
    ensures StartTrue(t, names[token := member], owner, Retired(r, member, token).started[owner])
  {
    var before := Origin(owner, member, token);
    OriginWho(t, names, r.started.Keys, member, token, owner);
    assert StartTrue(t, names, before, r.started[before]);
    RenamedWho(t, names, member, token, r.started[before].introducer);
  }

  lemma RetiredIsSound(t: Truth, names: Names, r: Rolls, member: Key, token: Key)
    requires TrueRosters(t) && Sound(t, names, r) && NewToken(t, names, token) && Retirable(r, token)
    requires member in t.members
    ensures Sound(t, names[token := member], Retired(r, member, token))
  {
    var r', names' := Retired(r, member, token), names[token := member];
    NR.WithoutIs(r.keys, member);
    forall owner, index: nat | HasEntry(r', owner, index)
      ensures EntryTrue(t, names', r', owner, index)
    {
      EntriesTrue(t, names, r, member, token, owner, index);
    }
    forall owner | owner in r'.started
      ensures StartTrue(t, names', owner, r'.started[owner])
    {
      StartsTrue(t, names, r, member, token, owner);
    }
  }

  lemma ChangeKept(t: Truth, v: View, change: Change)
    requires TrueRosters(t) && Inv(t, v) && Enabled(t, v, change)
    ensures Inv(t, After(t, v, change))
  {
    hide Sound, NamesAside, NewToken, TrueRosters, Told, Retired, TrueNews;
    match change
    case Hears(news) => ToldIsSound(t, v.names, v.r, news);
    case Retires(member, token) =>
      RetiredIsSound(t, v.names, v.r, member, token);
      NewAside(t, v.names, member, token);
  }

  lemma NewAside(t: Truth, names: Names, member: Key, token: Key)
    requires NamesAside(t, names) && NewToken(t, names, token)
    ensures NamesAside(t, names[token := member])
  {}

  lemma {:induction false} RunKept(t: Truth, changes: seq<Change>)
    requires TrueRosters(t) && Possible(t, changes)
    ensures Inv(t, Reached(t, changes))
    decreases |changes|
  {
    if changes != [] {
      RunKept(t, changes[..|changes| - 1]);
      ChangeKept(t, Reached(t, changes[..|changes| - 1]), changes[|changes| - 1]);
    }
  }

  /** Whatever was announced and whoever was retired, in whatever order, a place
      resolves to nobody or to a name for the member its owner numbered there. */
  lemma PlacesStandOverTime(t: Truth, changes: seq<Change>, owner: Key, index: nat)
    requires TrueRosters(t) && Possible(t, changes)
    ensures
      var v := Reached(t, changes);
      match Resolve(v.r, owner, index)
      case None => true
      case Some(key) =>
        && InRoster(t, Who(v.names, owner), index)
        && Who(v.names, key) == t.rosters[Who(v.names, owner)][index]
  {
    RunKept(t, changes);
    var v := Reached(t, changes);
    if Resolve(v.r, owner, index).Some? {
      ResolvedIsTrue(t, v.names, v.r, owner, index, {});
    }
  }

  /** Two members that both resolve a place, each by its own names, mean one
      member by it, whomever each of them retired before. */
  lemma MembersAgreeOverTime(t: Truth, mine: seq<Change>, yours: seq<Change>, myOwner: Key, yourOwner: Key, index: nat)
    requires TrueRosters(t) && Possible(t, mine) && Possible(t, yours)
    requires Who(Reached(t, mine).names, myOwner) == Who(Reached(t, yours).names, yourOwner)
    requires Resolve(Reached(t, mine).r, myOwner, index).Some? && Resolve(Reached(t, yours).r, yourOwner, index).Some?
    ensures Who(Reached(t, mine).names, Resolve(Reached(t, mine).r, myOwner, index).value)
         == Who(Reached(t, yours).names, Resolve(Reached(t, yours).r, yourOwner, index).value)
  {
    PlacesStandOverTime(t, mine, myOwner, index);
    PlacesStandOverTime(t, yours, yourOwner, index);
  }
}
