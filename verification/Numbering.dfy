/**
  Rosters with explicit numbering, as values: what each member is known to have
  numbered, and how a place resolves through the rosters it was inherited from.
 */
module Numbering {
  import opened Basics
  import opened KeyOrder
  import opened Sets

  /** What an `Entry` holds. */
  datatype Place = Place(key: Option<Key>, prefix: Option<Bytes>)

  /** A newcomer starts from a copy of its introducer's roster, up to `at`. */
  datatype Start = Start(introducer: Key, at: nat)

  /** `introductions` is by the introducer, then by the box it introduced in. */
  datatype Rolls = Rolls(
    entries: map<Key, map<nat, Place>>,
    started: map<Key, Start>,
    introductions: map<Key, map<Bytes, Key>>,
    keys: seq<Key>)

  const EMPTY := Rolls(map[], map[], map[], [])

  predicate Distinct(keys: seq<Key>) {
    forall i, j | 0 <= i < j < |keys| :: keys[i] != keys[j]
  }

  // Naming by a prefix.

  function Matches(keys: seq<Key>, prefix: Bytes): seq<Key> {
    if keys == [] then []
    else (if prefix <= keys[0] then [keys[0]] else []) + Matches(keys[1..], prefix)
  }

  function Named(keys: seq<Key>, prefix: Bytes): Option<Key> {
    var matches := Matches(keys, prefix);
    if |matches| == 1 then Some(matches[0]) else None
  }

  lemma {:induction false} MatchesAre(keys: seq<Key>, prefix: Bytes)
    ensures forall key :: key in Matches(keys, prefix) <==> key in keys && prefix <= key
    ensures Distinct(keys) ==> Distinct(Matches(keys, prefix))
  {
    if keys != [] {
      var rest := Matches(keys[1..], prefix);
      MatchesAre(keys[1..], prefix);
      assert keys == [keys[0]] + keys[1..];
      if Distinct(keys) {
        assert forall j | 0 <= j < |rest| :: rest[j] in rest;
        assert forall j | 0 <= j < |keys[1..]| :: keys[1..][j] == keys[j + 1];
      }
    }
  }

  /** A prefix names the one key it begins, if there is exactly one. */
  lemma NamedIs(keys: seq<Key>, prefix: Bytes, key: Key)
    requires Distinct(keys)
    ensures Named(keys, prefix) == Some(key) <==>
            key in keys && prefix <= key && forall other | other in keys && prefix <= other :: other == key
  {
    var matches := Matches(keys, prefix);
    MatchesAre(keys, prefix);
    if |matches| == 1 {
      assert matches[0] in matches && forall other | other in matches :: other == matches[0];
    } else if |matches| > 1 {
      assert matches[0] in matches && matches[1] in matches && matches[0] != matches[1];
    }
  }

  // Resolution.

  predicate HasEntry(r: Rolls, owner: Key, index: nat) {
    owner in r.entries && index in r.entries[owner]
  }

  function Held(keys: seq<Key>, place: Place): Option<Key> {
    if place.key.Some? then place.key
    else if place.prefix.Some? && place.prefix.value != [] then Named(keys, place.prefix.value)
    else None
  }

  /** `Rosters._resolve`; `seen` stops it where the starts go round. */
  function ResolveFrom(r: Rolls, owner: Key, index: nat, seen: set<Key>): Option<Key>
    decreases r.started.Keys - seen
  {
    if HasEntry(r, owner, index) then Held(r.keys, r.entries[owner][index])
    else if owner !in r.started || index > r.started[owner].at || owner in seen then None
    else ResolveFrom(r, r.started[owner].introducer, index, seen + {owner})
  }

  function Resolve(r: Rolls, owner: Key, index: nat): Option<Key> {
    ResolveFrom(r, owner, index, {})
  }

  /** `Rosters._indexes`. */
  function IndexesFrom(r: Rolls, owner: Key, seen: set<Key>): set<nat>
    decreases r.started.Keys - seen
  {
    var own := if owner in r.entries then r.entries[owner].Keys else {};
    if owner !in r.started || owner in seen then own
    else
      own + set i | i in IndexesFrom(r, r.started[owner].introducer, seen + {owner}) && i <= r.started[owner].at
  }

  function Indexes(r: Rolls, owner: Key): set<nat> {
    IndexesFrom(r, owner, {})
  }

  function Known(r: Rolls, owner: Key): map<nat, Option<Key>> {
    map index | index in Indexes(r, owner) :: Resolve(r, owner, index)
  }

  /** Whose own entry the resolution of a place ends at. */
  function SourceFrom(r: Rolls, owner: Key, index: nat, seen: set<Key>): (source: Option<Key>)
    ensures source.Some? ==> HasEntry(r, source.value, index)
    decreases r.started.Keys - seen
  {
    if HasEntry(r, owner, index) then Some(owner)
    else if owner !in r.started || index > r.started[owner].at || owner in seen then None
    else SourceFrom(r, r.started[owner].introducer, index, seen + {owner})
  }

  function Source(r: Rolls, owner: Key, index: nat): (source: Option<Key>)
    ensures source.Some? ==> HasEntry(r, source.value, index)
  {
    SourceFrom(r, owner, index, {})
  }

  /** Whether going back at most `n` starts from `owner` meets an entry at
      `index`. Unlike resolution it keeps no set of owners seen. */
  predicate Within(r: Rolls, owner: Key, index: nat, n: nat)
    decreases n
  {
    HasEntry(r, owner, index) ||
    (n > 0 && owner in r.started && index <= r.started[owner].at
     && Within(r, r.started[owner].introducer, index, n - 1))
  }

  ghost predicate Reaches(r: Rolls, owner: Key, index: nat) {
    exists n: nat :: Within(r, owner, index, n)
  }

  lemma {:induction false} SourceDecides(r: Rolls, owner: Key, index: nat, seen: set<Key>)
    ensures index in IndexesFrom(r, owner, seen) <==> SourceFrom(r, owner, index, seen).Some?
    ensures ResolveFrom(r, owner, index, seen) ==
            match SourceFrom(r, owner, index, seen)
            case None => None
            case Some(source) => Held(r.keys, r.entries[source][index])
    decreases r.started.Keys - seen
  {
    if owner in r.started && owner !in seen {
      SourceDecides(r, r.started[owner].introducer, index, seen + {owner});
    }
  }

  lemma {:induction false} WithinMore(r: Rolls, owner: Key, index: nat, n: nat)
    ensures Within(r, owner, index, n) ==> Within(r, owner, index, n + 1)
    decreases n
  {
    if n > 0 && owner in r.started {
      WithinMore(r, r.started[owner].introducer, index, n - 1);
    }
  }

  /** What was seen on the way is farther from the entry than where we are. */
  lemma {:induction false} SourceReached(r: Rolls, owner: Key, index: nat, n: nat, seen: set<Key>)
    requires Within(r, owner, index, n) && (n > 0 ==> !Within(r, owner, index, n - 1))
    requires forall other | other in seen :: !Within(r, other, index, n)
    ensures SourceFrom(r, owner, index, seen).Some?
    decreases n
  {
    if !HasEntry(r, owner, index) {
      var introducer := r.started[owner].introducer;
      forall other | other in seen
        ensures !Within(r, other, index, n - 1)
      {
        WithinMore(r, other, index, n - 1);
      }
      SourceReached(r, introducer, index, n - 1, seen + {owner});
    }
  }

  lemma {:induction false} LeastWithin(r: Rolls, owner: Key, index: nat, n: nat) returns (least: nat)
    requires Within(r, owner, index, n)
    ensures Within(r, owner, index, least) && (least > 0 ==> !Within(r, owner, index, least - 1))
    decreases n
  {
    if n > 0 && Within(r, owner, index, n - 1) {
      least := LeastWithin(r, owner, index, n - 1);
    } else {
      least := n;
    }
  }

  lemma {:induction false} SourceWithin(r: Rolls, owner: Key, index: nat, seen: set<Key>)
    requires SourceFrom(r, owner, index, seen).Some?
    ensures Reaches(r, owner, index)
    decreases r.started.Keys - seen
  {
    if HasEntry(r, owner, index) {
      assert Within(r, owner, index, 0);
    } else {
      var introducer := r.started[owner].introducer;
      SourceWithin(r, introducer, index, seen + {owner});
      var n: nat :| Within(r, introducer, index, n);
      assert Within(r, owner, index, n + 1);
    }
  }

  /** However the starts go round, an index is known exactly when the chain of
      starts meets an entry for it: stopping at an owner seen loses none. */
  lemma KnownExactly(r: Rolls, owner: Key, index: nat)
    ensures index in Known(r, owner) <==> Reaches(r, owner, index)
    ensures index in Known(r, owner) <==> Source(r, owner, index).Some?
    ensures index !in Known(r, owner) ==> Resolve(r, owner, index) == None
  {
    SourceDecides(r, owner, index, {});
    if Source(r, owner, index).Some? {
      SourceWithin(r, owner, index, {});
    }
    if Reaches(r, owner, index) {
      var n: nat :| Within(r, owner, index, n);
      var least := LeastWithin(r, owner, index, n);
      SourceReached(r, owner, index, least, {});
    }
  }

  // Size and place.

  /** `Rosters.size`: one more than the last index known. */
  function Size(r: Rolls, owner: Key): (size: nat)
    ensures forall index: nat | Reaches(r, owner, index) :: index < size
    ensures size > 0 ==> Reaches(r, owner, size - 1)
  {
    var known := Indexes(r, owner);
    assert forall index: nat :: index in known <==> Reaches(r, owner, index) by {
      forall index: nat
        ensures index in known <==> Reaches(r, owner, index)
      {
        KnownExactly(r, owner, index);
      }
    }
    if known == {} then 0 else Largest(known) + 1
  }

  /** The first place from `from` on, below `size`, that resolves to `member`. */
  function FirstPlace(r: Rolls, owner: Key, member: Key, from: nat, size: nat): Option<nat>
    decreases size - from
  {
    if from >= size then None
    else if Resolve(r, owner, from) == Some(member) then Some(from)
    else FirstPlace(r, owner, member, from + 1, size)
  }

  function PlaceOf(r: Rolls, owner: Key, member: Key): Option<nat> {
    FirstPlace(r, owner, member, 0, Size(r, owner))
  }

  /** `Rosters.index_of`, over the known indexes in ascending order. */
  method IndexOf(r: Rolls, owner: Key, member: Key) returns (place: Option<nat>)
    ensures place == PlaceOf(r, owner, member)
  {
    var known := Known(r, owner);
    var size := Size(r, owner);
    for index := 0 to size
      invariant FirstPlace(r, owner, member, index, size) == PlaceOf(r, owner, member)
    {
      KnownExactly(r, owner, index);
      if index in known && known[index] == Some(member) {
        return Some(index);
      }
    }
    return None;
  }

  /** The place found resolves to the member and no earlier one does; none is
      found only if the member has no place. */
  lemma PlaceIsFirst(r: Rolls, owner: Key, member: Key)
    ensures
      match PlaceOf(r, owner, member)
      case Some(place) =>
        && Resolve(r, owner, place) == Some(member)
        && forall index: nat | index < place :: Resolve(r, owner, index) != Some(member)
      case None => forall index: nat :: Resolve(r, owner, index) != Some(member)
  {
    FirstPlaceIs(r, owner, member, 0, Size(r, owner));
    forall index: nat | index >= Size(r, owner)
      ensures Resolve(r, owner, index) != Some(member)
    {
      KnownExactly(r, owner, index);
    }
  }

  lemma {:induction false} FirstPlaceIs(r: Rolls, owner: Key, member: Key, from: nat, size: nat)
    ensures
      match FirstPlace(r, owner, member, from, size)
      case Some(place) =>
        && Resolve(r, owner, place) == Some(member)
        && forall index: nat | from <= index < place :: Resolve(r, owner, index) != Some(member)
      case None => forall index: nat | from <= index < size :: Resolve(r, owner, index) != Some(member)
    decreases size - from
  {
    if from < size && Resolve(r, owner, from) != Some(member) {
      FirstPlaceIs(r, owner, member, from + 1, size);
    }
  }

  // What the methods of `Rosters` change.

  /** `learn` */
  function Learnt(keys: seq<Key>, key: Key): seq<Key> {
    if key in keys then keys else keys + [key]
  }

  /** `number`: the first entry for a place stands. */
  function Numbered(r: Rolls, owner: Key, index: nat, place: Place): Rolls {
    r.(entries := EntriesNumbered(r.entries, owner, index, place))
  }

  function EntriesNumbered(entries: map<Key, map<nat, Place>>, owner: Key, index: nat, place: Place)
    : map<Key, map<nat, Place>>
  {
    var roster := if owner in entries then entries[owner] else map[];
    entries[owner := if index in roster then roster else roster[index := place]]
  }

  function RosterOf(sorted: seq<Key>): map<nat, Place> {
    map i: nat | i < |sorted| :: Place(Some(sorted[i]), None)
  }

  /** `found`: every founder's roster is the sorted founders. */
  function Founded(r: Rolls, founders: seq<Key>, n: nat): Rolls
    requires n <= |founders|
  {
    if n == 0 then r
    else
      var before := Founded(r, founders, n - 1);
      before.(entries := before.entries[founders[n - 1] := RosterOf(Sorted(founders))],
              keys := Learnt(before.keys, founders[n - 1]))
  }

  /** `_begin`: a newcomer's roster starts at the place its introducer gave it,
      once that place is known. */
  function Begun(r: Rolls, newcomer: Key, introducer: Key): Rolls {
    match PlaceOf(r, introducer, newcomer)
    case None => r
    case Some(at) => r.(started := r.started[newcomer := Start(introducer, at)])
  }

  function Renamed(key: Key, member: Key, token: Key): Key {
    if key == member then token else key
  }

  /** Whether a place is `member`'s. */
  predicate Holds(keys: seq<Key>, place: Place, member: Key) {
    || place.key == Some(member)
    || (place.prefix.Some? && place.prefix.value != [] && Named(keys, place.prefix.value) == Some(member))
  }

  function Replaced(keys: seq<Key>, place: Place, member: Key, token: Key): Place {
    if Holds(keys, place, member) then Place(Some(token), None) else place
  }

  function Without(keys: seq<Key>, member: Key): seq<Key> {
    if keys == [] then []
    else (if keys[0] == member then [] else [keys[0]]) + Without(keys[1..], member)
  }

  /** The entries of a roster after `retire`. */
  function RosterRetired(keys: seq<Key>, roster: map<nat, Place>, member: Key, token: Key): map<nat, Place> {
    map index | index in roster :: Replaced(keys, roster[index], member, token)
  }

  /** Whose things become `owner`'s when `member` is renamed. */
  function Origin(owner: Key, member: Key, token: Key): Key {
    if owner == token then member else owner
  }

  function EntriesRetired(keys: seq<Key>, entries: map<Key, map<nat, Place>>, member: Key, token: Key)
    : map<Key, map<nat, Place>>
    requires token !in entries
  {
    map owner | owner in RenamedKeys(entries.Keys, member, token) ::
      RosterRetired(keys, entries[Origin(owner, member, token)], member, token)
  }

  function StartedRetired(started: map<Key, Start>, member: Key, token: Key): map<Key, Start>
    requires token !in started
  {
    map owner | owner in RenamedKeys(started.Keys, member, token) ::
      StartRetired(started[Origin(owner, member, token)], member, token)
  }

  function StartRetired(start: Start, member: Key, token: Key): Start {
    Start(Renamed(start.introducer, member, token), start.at)
  }

  function IntroductionsRetired(introductions: map<Key, map<Bytes, Key>>, member: Key, token: Key)
    : map<Key, map<Bytes, Key>>
    requires token !in introductions
  {
    map introducer | introducer in RenamedKeys(introductions.Keys, member, token) ::
      IntroducedRetired(introductions[Origin(introducer, member, token)], member, token)
  }

  function IntroducedRetired(introduced: map<Bytes, Key>, member: Key, token: Key): map<Bytes, Key> {
    map box | box in introduced :: Renamed(introduced[box], member, token)
  }

  /** `retire`: `member` is forgotten and `token` stands in its places. */
  function Retired(r: Rolls, member: Key, token: Key): Rolls
    requires token !in r.entries && token !in r.started && token !in r.introductions
  {
    Rolls(
      EntriesRetired(r.keys, r.entries, member, token),
      StartedRetired(r.started, member, token),
      IntroductionsRetired(r.introductions, member, token),
      Without(r.keys, member))
  }

  function RenamedKeys(owners: set<Key>, member: Key, token: Key): set<Key> {
    if member in owners then owners - {member} + {token} else owners
  }
}
