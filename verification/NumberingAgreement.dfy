/**
  Rosters across members. Each member keeps a partial view of everyone's
  append-only numbering, built from whatever announcements reached it. Whatever
  it missed, a place it resolves is the place as its owner numbered it.
 */
module NumberingAgreement {
  import opened Basics
  import opened KeyOrder
  import opened Numbering

  /** The rosters as their owners have them, and how each newcomer joined. */
  datatype Truth = Truth(rosters: map<Key, seq<Key>>, joined: map<Key, Start>, members: set<Key>)

  /** An announcement: the founders, a place numbered, a key learnt, or that a
      newcomer joined through an introducer. */
  datatype News =
    | Founders(founders: seq<Key>)
    | Numbers(owner: Key, index: nat, place: Place)
    | Learns(key: Key)
    | Starts(newcomer: Key, introducer: Key)

  predicate InRoster(t: Truth, owner: Key, index: nat) {
    owner in t.rosters && index < |t.rosters[owner]|
  }

  /** A newcomer's roster begins as its introducer's, through its own place. */
  predicate JoinedTruly(t: Truth, newcomer: Key, start: Start) {
    && InRoster(t, start.introducer, start.at) && InRoster(t, newcomer, start.at)
    && t.rosters[start.introducer][start.at] == newcomer
    && forall i | 0 <= i <= start.at :: t.rosters[newcomer][i] == t.rosters[start.introducer][i]
  }

  predicate TrueRosters(t: Truth) {
    && (forall owner | owner in t.rosters ::
          Distinct(t.rosters[owner]) && forall i | 0 <= i < |t.rosters[owner]| :: t.rosters[owner][i] in t.members)
    && (forall newcomer | newcomer in t.joined :: JoinedTruly(t, newcomer, t.joined[newcomer]))
  }

  /** Whom a name is for: a member is its own, and a token that stands for a
      member is in `names`. */
  type Names = map<Key, Key>

  function Who(names: Names, key: Key): Key {
    if key in names then names[key] else key
  }

  /** The place is the member `key`'s: a prefix begins no other member's key. A
      place may also name nobody. */
  predicate PlaceTrue(t: Truth, names: Names, place: Place, key: Key) {
    && (place.key.Some? ==> Who(names, place.key.value) == key)
    && (place.prefix.Some? && place.prefix.value != [] ==>
          && place.prefix.value <= key
          && forall other | other in t.members && place.prefix.value <= other :: other == key)
  }

  predicate FoundedTruly(t: Truth, founders: seq<Key>, founder: Key) {
    && founder in t.members && founder in t.rosters
    && Sorted(founders) <= t.rosters[founder]
  }

  predicate TrueNews(t: Truth, news: News) {
    match news
    case Founders(founders) => forall founder | founder in founders :: FoundedTruly(t, founders, founder)
    case Numbers(owner, index, place) =>
      InRoster(t, owner, index) && PlaceTrue(t, map[], place, t.rosters[owner][index])
    case Learns(key) => key in t.members
    case Starts(newcomer, introducer) =>
      newcomer in t.joined && t.joined[newcomer].introducer == introducer
  }

  function Told(r: Rolls, news: News): Rolls {
    match news
    case Founders(founders) => Founded(r, founders, |founders|)
    case Numbers(owner, index, place) => Numbered(r, owner, index, place)
    case Learns(key) => r.(keys := Learnt(r.keys, key))
    case Starts(newcomer, introducer) => Begun(r, newcomer, introducer)
  }

  /** What a member knows after hearing `news`, in that order. */
  function Heard(news: seq<News>): Rolls {
    if news == [] then EMPTY else Told(Heard(news[..|news| - 1]), news[|news| - 1])
  }

  ghost predicate AllTrue(t: Truth, news: seq<News>) {
    forall n | 0 <= n < |news| :: TrueNews(t, news[n])
  }

  // What is heard is true.

  predicate EntryTrue(t: Truth, names: Names, r: Rolls, owner: Key, index: nat)
    requires HasEntry(r, owner, index)
  {
    && InRoster(t, Who(names, owner), index)
    && PlaceTrue(t, names, r.entries[owner][index], t.rosters[Who(names, owner)][index])
  }

  /** The start is how its newcomer joined, by whatever names. */
  predicate StartTrue(t: Truth, names: Names, newcomer: Key, start: Start) {
    && Who(names, newcomer) in t.joined
    && t.joined[Who(names, newcomer)] == Start(Who(names, start.introducer), start.at)
  }

  ghost predicate Sound(t: Truth, names: Names, r: Rolls) {
    && names.Keys !! t.members
    && Distinct(r.keys) && (forall key | key in r.keys :: key in t.members)
    && (forall owner, index: nat | HasEntry(r, owner, index) :: EntryTrue(t, names, r, owner, index))
    && (forall owner | owner in r.started :: StartTrue(t, names, owner, r.started[owner]))
  }

  /** Whoever a place resolves to stands for whom its owner numbered there. */
  lemma {:induction false} ResolvedIsTrue(t: Truth, names: Names, r: Rolls, owner: Key, index: nat, seen: set<Key>)
    requires TrueRosters(t) && Sound(t, names, r) && ResolveFrom(r, owner, index, seen).Some?
    ensures InRoster(t, Who(names, owner), index)
    ensures Who(names, ResolveFrom(r, owner, index, seen).value) == t.rosters[Who(names, owner)][index]
    decreases r.started.Keys - seen
  {
    if HasEntry(r, owner, index) {
      var place := r.entries[owner][index];
      assert EntryTrue(t, names, r, owner, index);
      if place.key.None? {
        NamedIs(r.keys, place.prefix.value, ResolveFrom(r, owner, index, seen).value);
      }
    } else {
      var start := r.started[owner];
      ResolvedIsTrue(t, names, r, start.introducer, index, seen + {owner});
      assert StartTrue(t, names, owner, start);
      assert JoinedTruly(t, Who(names, owner), t.joined[Who(names, owner)]);
    }
  }

  lemma ToldIsSound(t: Truth, names: Names, r: Rolls, news: News)
    requires TrueRosters(t) && NamesAside(t, names) && Sound(t, names, r) && TrueNews(t, news)
    ensures Sound(t, names, Told(r, news))
  {
    match news
    case Founders(founders) => FoundedIsSound(t, names, r, founders, |founders|);
    case Numbers(owner, index, place) => NumberedIsSound(t, names, r, owner, index, place);
    case Learns(key) =>
      var r' := Told(r, news);
      forall o, i: nat | HasEntry(r', o, i)
        ensures EntryTrue(t, names, r', o, i)
      {
        assert HasEntry(r, o, i) && EntryTrue(t, names, r, o, i);
      }
    case Starts(newcomer, introducer) => BegunIsSound(t, names, r, newcomer, introducer);
  }

  /** No token is a member, an owner of a roster, or one who joined. */
  ghost predicate NamesAside(t: Truth, names: Names) {
    && names.Keys !! t.members && names.Keys !! t.rosters.Keys && names.Keys !! t.joined.Keys
    && forall newcomer | newcomer in t.joined :: t.joined[newcomer].introducer !in names
  }

  lemma NumberedIsSound(t: Truth, names: Names, r: Rolls, owner: Key, index: nat, place: Place)
    requires TrueRosters(t) && NamesAside(t, names) && Sound(t, names, r)
    requires TrueNews(t, Numbers(owner, index, place))
    ensures Sound(t, names, Numbered(r, owner, index, place))
  {
    var r' := Numbered(r, owner, index, place);
    assert t.rosters[owner][index] in t.members;
    forall o, i: nat | HasEntry(r', o, i)
      ensures EntryTrue(t, names, r', o, i)
    {
      if !(o == owner && i == index) || HasEntry(r, owner, index) {
        assert HasEntry(r, o, i) && EntryTrue(t, names, r, o, i);
      }
    }
  }

  /** The introducer's place for a newcomer is where it joined. */
  lemma BegunWhereJoined(t: Truth, names: Names, r: Rolls, newcomer: Key, introducer: Key)
    requires TrueRosters(t) && NamesAside(t, names) && Sound(t, names, r)
    requires TrueNews(t, Starts(newcomer, introducer)) && PlaceOf(r, introducer, newcomer).Some?
    ensures PlaceOf(r, introducer, newcomer).value == t.joined[newcomer].at
  {
    var at := PlaceOf(r, introducer, newcomer).value;
    PlaceIsFirst(r, introducer, newcomer);
    ResolvedIsTrue(t, names, r, introducer, at, {});
    assert JoinedTruly(t, newcomer, t.joined[newcomer]);
    assert Distinct(t.rosters[introducer]);
  }

  lemma BegunIsSound(t: Truth, names: Names, r: Rolls, newcomer: Key, introducer: Key)
    requires TrueRosters(t) && NamesAside(t, names) && Sound(t, names, r)
    requires TrueNews(t, Starts(newcomer, introducer))
    ensures Sound(t, names, Begun(r, newcomer, introducer))
  {
    var r' := Begun(r, newcomer, introducer);
    if PlaceOf(r, introducer, newcomer).Some? {
      BegunWhereJoined(t, names, r, newcomer, introducer);
    }
    hide PlaceOf;
    forall o, i: nat | HasEntry(r', o, i)
      ensures EntryTrue(t, names, r', o, i)
    {
      assert HasEntry(r, o, i) && EntryTrue(t, names, r, o, i);
    }
  }

  lemma {:induction false} FoundedIsSound(t: Truth, names: Names, r: Rolls, founders: seq<Key>, n: nat)
    requires TrueRosters(t) && NamesAside(t, names) && Sound(t, names, r)
    requires TrueNews(t, Founders(founders)) && n <= |founders|
    ensures Sound(t, names, Founded(r, founders, n))
    decreases n
  {
    if n > 0 {
      FoundedIsSound(t, names, r, founders, n - 1);
      var before, r', founder := Founded(r, founders, n - 1), Founded(r, founders, n), founders[n - 1];
      assert FoundedTruly(t, founders, founder);
      forall o, i: nat | HasEntry(r', o, i)
        ensures EntryTrue(t, names, r', o, i)
      {
        if o != founder {
          assert HasEntry(before, o, i) && EntryTrue(t, names, before, o, i);
        } else {
          assert t.rosters[founder][i] in t.members;
        }
      }
    }
  }

  lemma {:induction false} HeardIsSound(t: Truth, news: seq<News>)
    requires TrueRosters(t) && AllTrue(t, news)
    ensures Sound(t, map[], Heard(news))
  {
    if news != [] {
      HeardIsSound(t, news[..|news| - 1]);
      ToldIsSound(t, map[], Heard(news[..|news| - 1]), news[|news| - 1]);
    }
  }

  /** The design claim. Whichever true announcements reached a member, in
      whatever order and however often, a place resolves to nobody or to the
      member its owner numbered there: a hole shifts nothing. */
  lemma HolesShiftNothing(t: Truth, news: seq<News>, owner: Key, index: nat)
    requires TrueRosters(t) && AllTrue(t, news)
    ensures
      match Resolve(Heard(news), owner, index)
      case None => true
      case Some(key) => InRoster(t, owner, index) && key == t.rosters[owner][index]
  {
    HeardIsSound(t, news);
    if Resolve(Heard(news), owner, index).Some? {
      ResolvedIsTrue(t, map[], Heard(news), owner, index, {});
    }
  }

  /** Two members that both resolve a place agree on it. */
  lemma MembersAgree(t: Truth, mine: seq<News>, yours: seq<News>, owner: Key, index: nat)
    requires TrueRosters(t) && AllTrue(t, mine) && AllTrue(t, yours)
    requires Resolve(Heard(mine), owner, index).Some? && Resolve(Heard(yours), owner, index).Some?
    ensures Resolve(Heard(mine), owner, index) == Resolve(Heard(yours), owner, index)
  {
    HolesShiftNothing(t, mine, owner, index);
    HolesShiftNothing(t, yours, owner, index);
  }

  // Nothing missed, nothing left unresolved.

  predicate NotBlank(place: Place) {
    place.key.Some? || (place.prefix.Some? && place.prefix.value != [])
  }

  ghost predicate NoBlanks(r: Rolls) {
    forall owner, index: nat | HasEntry(r, owner, index) :: NotBlank(r.entries[owner][index])
  }

  /** Every member's key is known, and every place of every roster has an entry
      that names someone or is inherited. */
  ghost predicate Complete(t: Truth, r: Rolls) {
    && (forall key | key in t.members :: key in r.keys)
    && NoBlanks(r)
    && (forall owner, index: nat {:trigger Covered(r, owner, index)} | InRoster(t, owner, index) ::
          Covered(r, owner, index))
  }

  predicate Covered(r: Rolls, owner: Key, index: nat) {
    HasEntry(r, owner, index) || (owner in r.started && index <= r.started[owner].at)
  }

  /** Introductions are acyclic: an introducer ranks below whom it introduced. */
  ghost predicate Ranked(t: Truth, rank: map<Key, nat>) {
    && (forall owner | owner in t.rosters :: owner in rank)
    && (forall newcomer | newcomer in t.joined :: RankedAbove(t.joined[newcomer].introducer, newcomer, rank))
  }

  ghost predicate RankedAbove(lower: Key, upper: Key, rank: map<Key, nat>) {
    lower in rank && upper in rank && rank[lower] < rank[upper]
  }

  lemma {:induction false} CompleteResolves(t: Truth, r: Rolls, rank: map<Key, nat>, owner: Key, index: nat,
                                            seen: set<Key>)
    requires TrueRosters(t) && Sound(t, map[], r) && Complete(t, r) && Ranked(t, rank) && InRoster(t, owner, index)
    requires forall other | other in seen :: RankedAbove(owner, other, rank)
    ensures ResolveFrom(r, owner, index, seen) == Some(t.rosters[owner][index])
    decreases rank[owner]
  {
    if HasEntry(r, owner, index) {
      EntryResolves(t, r, owner, index);
    } else {
      assert Covered(r, owner, index);
      var start := r.started[owner];
      assert StartTrue(t, map[], owner, start) && JoinedTruly(t, owner, start);
      assert RankedAbove(start.introducer, owner, rank);
      forall other | other in seen + {owner}
        ensures RankedAbove(start.introducer, other, rank)
      {
        assert other == owner || RankedAbove(owner, other, rank);
      }
      CompleteResolves(t, r, rank, start.introducer, index, seen + {owner});
    }
  }

  lemma EntryResolves(t: Truth, r: Rolls, owner: Key, index: nat)
    requires TrueRosters(t) && Sound(t, map[], r) && Complete(t, r) && HasEntry(r, owner, index)
    ensures InRoster(t, owner, index) && Held(r.keys, r.entries[owner][index]) == Some(t.rosters[owner][index])
  {
    assert EntryTrue(t, map[], r, owner, index) && NotBlank(r.entries[owner][index]);
    var place, key := r.entries[owner][index], t.rosters[owner][index];
    if place.key.None? {
      NamedIs(r.keys, place.prefix.value, key);
    }
  }

  /** What a member has heard when it missed nothing: the founders first, then
      no blank place, every key, and for every place of every roster the
      founding, its own announcement, or that of a start it is inherited by,
      heard when the introducer's place for the newcomer was known. */
  ghost predicate MissedNothing(t: Truth, news: seq<News>) {
    && news != [] && news[0].Founders?
    && (forall n | 1 <= n < |news| :: Later(news[n]))
    && (forall key | key in t.members :: key in news[0].founders || Learns(key) in news)
    && (forall owner, index: nat {:trigger PlaceTold(t, news, owner, index)} | InRoster(t, owner, index) ::
          PlaceTold(t, news, owner, index))
  }

  /** No founding again, and no blank place. */
  predicate Later(news: News) {
    !news.Founders? && (news.Numbers? ==> NotBlank(news.place))
  }

  ghost predicate PlaceTold(t: Truth, news: seq<News>, owner: Key, index: nat)
    requires news != [] && news[0].Founders?
  {
    || (owner in news[0].founders && index < |news[0].founders|)
    || (exists n :: 0 <= n < |news| && NumbersAt(news[n], owner, index))
    || (exists n :: 0 <= n < |news| && BeginsAt(t, news, n, owner, index))
  }

  predicate NumbersAt(news: News, owner: Key, index: nat) {
    news.Numbers? && news.owner == owner && news.index == index
  }

  ghost predicate BeginsAt(t: Truth, news: seq<News>, n: nat, owner: Key, index: nat)
    requires n < |news|
  {
    && news[n].Starts? && news[n].newcomer == owner
    && PlaceOf(Heard(news[..n]), news[n].introducer, owner).Some?
    && owner in t.joined && index <= t.joined[owner].at
  }

  /** What one announcement after the founding never takes back. */
  lemma ToldKeeps(r: Rolls, news: News, owner: Key, index: nat)
    requires !news.Founders?
    ensures HasEntry(r, owner, index) ==> HasEntry(Told(r, news), owner, index)
    ensures owner in r.started ==> owner in Told(r, news).started
    ensures forall key | key in r.keys :: key in Told(r, news).keys
  {}

  lemma HeardFirst(news: seq<News>)
    requires news != []
    ensures Heard(news[..1]) == Told(EMPTY, news[0])
  {}

  /** Hearing `m` announcements is hearing all but the last of them, then it. */
  lemma HeardNext(news: seq<News>, n: nat)
    requires n < |news|
    ensures Heard(news[..n + 1]) == Told(Heard(news[..n]), news[n])
  {
    assert news[..n + 1][..n] == news[..n];
  }

  lemma {:induction false} HeardKeeps(news: seq<News>, m: nat, owner: Key, index: nat)
    requires 0 < m <= |news| && forall n | 1 <= n < |news| :: Later(news[n])
    ensures HasEntry(Heard(news[..m]), owner, index) ==> HasEntry(Heard(news), owner, index)
    ensures owner in Heard(news[..m]).started ==> owner in Heard(news).started
    ensures forall key | key in Heard(news[..m]).keys :: key in Heard(news).keys
  {
    if m == |news| {
      assert news[..m] == news;
    } else {
      var shorter := news[..|news| - 1];
      HeardKeeps(shorter, m, owner, index);
      assert shorter[..m] == news[..m];
      ToldKeeps(Heard(shorter), news[|news| - 1], owner, index);
    }
  }

  lemma {:induction false} FoundedHas(r: Rolls, founders: seq<Key>, n: nat, founder: Key, index: nat)
    requires n <= |founders| && founder in founders[..n] && index < |founders|
    ensures HasEntry(Founded(r, founders, n), founder, index)
    ensures founder in Founded(r, founders, n).keys
    decreases n
  {
    SortedAscends(founders);
    if founder in founders[..n - 1] {
      FoundedHas(r, founders, n - 1, founder, index);
    } else {
      assert founders[..n] == founders[..n - 1] + [founders[n - 1]];
    }
  }

  lemma {:induction false} FoundedNames(founders: seq<Key>, n: nat)
    requires n <= |founders|
    ensures NoBlanks(Founded(EMPTY, founders, n))
    decreases n
  {
    if n > 0 {
      FoundedNames(founders, n - 1);
      var before, r := Founded(EMPTY, founders, n - 1), Founded(EMPTY, founders, n);
      forall owner, index: nat | HasEntry(r, owner, index)
        ensures NotBlank(r.entries[owner][index])
      {
        if owner != founders[n - 1] {
          assert HasEntry(before, owner, index) && NotBlank(before.entries[owner][index]);
        }
      }
    }
  }

  lemma {:induction false} HeardNames(news: seq<News>)
    requires news != [] && news[0].Founders? && forall n | 1 <= n < |news| :: Later(news[n])
    ensures NoBlanks(Heard(news))
  {
    var last := news[|news| - 1];
    if |news| == 1 {
      HeardFirst(news);
      assert news[..1] == news;
      FoundedNames(last.founders, |last.founders|);
    } else {
      HeardNames(news[..|news| - 1]);
      ToldNames(Heard(news[..|news| - 1]), last);
    }
  }

  lemma ToldNames(r: Rolls, news: News)
    requires NoBlanks(r) && Later(news)
    ensures NoBlanks(Told(r, news))
  {}

  lemma StartHeard(t: Truth, news: seq<News>, n: nat, owner: Key, index: nat)
    requires Sound(t, map[], Heard(news)) && n < |news| && news[0].Founders?
    requires forall m | 1 <= m < |news| :: Later(news[m])
    requires BeginsAt(t, news, n, owner, index)
    ensures Covered(Heard(news), owner, index)
  {
    HeardNext(news, n);
    HeardKeeps(news, n + 1, owner, index);
  }

  lemma NumberHeard(news: seq<News>, n: nat, owner: Key, index: nat)
    requires n < |news| && NumbersAt(news[n], owner, index) && forall m | 1 <= m < |news| :: Later(news[m])
    ensures HasEntry(Heard(news), owner, index)
  {
    HeardNext(news, n);
    HeardKeeps(news, n + 1, owner, index);
  }

  lemma FounderHeard(news: seq<News>, founder: Key, index: nat)
    requires news != [] && news[0].Founders? && forall m | 1 <= m < |news| :: Later(news[m])
    requires founder in news[0].founders && index < |news[0].founders|
    ensures HasEntry(Heard(news), founder, index) && founder in Heard(news).keys
  {
    var founders := news[0].founders;
    HeardFirst(news);
    assert founders[..|founders|] == founders;
    FoundedHas(EMPTY, founders, |founders|, founder, index);
    HeardKeeps(news, 1, founder, index);
  }

  lemma PlaceHeard(t: Truth, news: seq<News>, owner: Key, index: nat)
    requires Sound(t, map[], Heard(news)) && MissedNothing(t, news) && PlaceTold(t, news, owner, index)
    ensures Covered(Heard(news), owner, index)
  {
    if owner in news[0].founders && index < |news[0].founders| {
      FounderHeard(news, owner, index);
    } else if exists n :: 0 <= n < |news| && NumbersAt(news[n], owner, index) {
      var n :| 0 <= n < |news| && NumbersAt(news[n], owner, index);
      NumberHeard(news, n, owner, index);
    } else {
      var n :| 0 <= n < |news| && BeginsAt(t, news, n, owner, index);
      StartHeard(t, news, n, owner, index);
    }
  }

  lemma KeyHeard(t: Truth, news: seq<News>, key: Key)
    requires MissedNothing(t, news) && key in t.members
    ensures key in Heard(news).keys
  {
    if key in news[0].founders {
      FounderHeard(news, key, 0);
    } else {
      var n :| 0 <= n < |news| && news[n] == Learns(key);
      HeardNext(news, n);
      HeardKeeps(news, n + 1, key, 0);
    }
  }

  /** A member that missed nothing resolves every place of every roster, if the
      introductions are acyclic. */
  lemma NothingMissedAllResolved(t: Truth, news: seq<News>, rank: map<Key, nat>, owner: Key, index: nat)
    requires TrueRosters(t) && AllTrue(t, news) && MissedNothing(t, news) && Ranked(t, rank)
    requires InRoster(t, owner, index)
    ensures Resolve(Heard(news), owner, index) == Some(t.rosters[owner][index])
  {
    HeardIsSound(t, news);
    HeardNames(news);
    forall key | key in t.members
      ensures key in Heard(news).keys
    {
      KeyHeard(t, news, key);
    }
    forall o, i: nat | InRoster(t, o, i)
      ensures Covered(Heard(news), o, i)
    {
      assert PlaceTold(t, news, o, i);
      PlaceHeard(t, news, o, i);
    }
    CompleteResolves(t, Heard(news), rank, owner, index, {});
  }

  // Learning a key.

  /** Learning a key never moves a place to another member: it stays, becomes
      ambiguous, or was unresolved and is now the key's. */
  lemma LearningMovesNothing(r: Rolls, key: Key, owner: Key, index: nat)
    requires Distinct(r.keys)
    ensures
      var before, after := Resolve(r, owner, index), Resolve(r.(keys := Learnt(r.keys, key)), owner, index);
      after == before || (before.Some? && after.None?) || (before.None? && after == Some(key))
  {
    var r' := r.(keys := Learnt(r.keys, key));
    SameSource(r, r', owner, index, {});
    SourceDecides(r, owner, index, {});
    SourceDecides(r', owner, index, {});
    var source := Source(r, owner, index);
    if source.Some? {
      var place := r.entries[source.value][index];
      if place.key.None? && place.prefix.Some? {
        LearntNames(r.keys, key, place.prefix.value);
      }
    }
  }

  lemma {:induction false} SameSource(r: Rolls, r': Rolls, owner: Key, index: nat, seen: set<Key>)
    requires r'.entries == r.entries && r'.started == r.started
    ensures SourceFrom(r', owner, index, seen) == SourceFrom(r, owner, index, seen)
    decreases r.started.Keys - seen
  {
    if owner in r.started && owner !in seen {
      SameSource(r, r', r.started[owner].introducer, index, seen + {owner});
    }
  }

  lemma {:induction false} LearntNames(keys: seq<Key>, key: Key, prefix: Bytes)
    ensures Matches(Learnt(keys, key), prefix) ==
            Matches(keys, prefix) + if key !in keys && prefix <= key then [key] else []
  {
    if key !in keys {
      MatchesSnoc(keys, key, prefix);
    }
  }

  lemma {:induction false} MatchesSnoc(keys: seq<Key>, key: Key, prefix: Bytes)
    ensures Matches(keys + [key], prefix) == Matches(keys, prefix) + if prefix <= key then [key] else []
  {
    if keys != [] {
      MatchesSnoc(keys[1..], key, prefix);
      assert (keys + [key])[1..] == keys[1..] + [key];
    }
  }

  // What an entry says.

  predicate Founds(news: News, owner: Key) {
    news.Founders? && owner in news.founders
  }

  /** Any entry there stands, unless its owner is founded again; and one is new
      only if it was announced, as it was announced. */
  lemma EntryAfter(r: Rolls, news: News, owner: Key, index: nat)
    ensures
      var r' := Told(r, news);
      if Founds(news, owner) then
        && (HasEntry(r', owner, index) <==> index < |news.founders|)
        && (HasEntry(r', owner, index) ==>
              index < |Sorted(news.founders)|
              && r'.entries[owner][index] == Place(Some(Sorted(news.founders)[index]), None))
      else
        && (HasEntry(r', owner, index) <==> HasEntry(r, owner, index) || NumbersAt(news, owner, index))
        && (HasEntry(r', owner, index) ==>
              r'.entries[owner][index] == if HasEntry(r, owner, index) then r.entries[owner][index] else news.place)
  {
    if news.Founders? {
      var founders := news.founders;
      assert founders[..|founders|] == founders;
      FoundedEntry(r, founders, |founders|, owner, index);
      SortedAscends(founders);
    }
  }

  lemma {:induction false} FoundedEntry(r: Rolls, founders: seq<Key>, n: nat, owner: Key, index: nat)
    requires n <= |founders|
    ensures
      var entries := Founded(r, founders, n).entries;
      if owner in founders[..n] then owner in entries && entries[owner] == RosterOf(Sorted(founders))
      else (owner in entries <==> owner in r.entries) && (owner in entries ==> entries[owner] == r.entries[owner])
    decreases n
  {
    if n > 0 {
      FoundedEntry(r, founders, n - 1, owner, index);
      assert founders[..n] == founders[..n - 1] + [founders[n - 1]];
    }
  }

  /** The first entry announced for a place stands, whatever is announced later
      short of founding its owner again; and a founder's are the founders, as
      they sort. */
  lemma {:induction false} FirstEntryStands(news: seq<News>, n: nat, owner: Key, index: nat)
    requires n < |news| && forall m | n < m < |news| :: !Founds(news[m], owner)
    ensures NumbersAt(news[n], owner, index) && !HasEntry(Heard(news[..n]), owner, index) ==>
              HasEntry(Heard(news), owner, index) && Heard(news).entries[owner][index] == news[n].place
    ensures Founds(news[n], owner) && index < |news[n].founders| ==>
              && HasEntry(Heard(news), owner, index) && index < |Sorted(news[n].founders)|
              && Heard(news).entries[owner][index] == Place(Some(Sorted(news[n].founders)[index]), None)
    decreases |news|
  {
    var front := news[..|news| - 1];
    if n < |news| - 1 {
      FirstEntryStands(front, n, owner, index);
      assert front[..n] == news[..n];
    }
    EntryAfter(Heard(front), news[|news| - 1], owner, index);
    hide Told, Founded;
  }

  /** And every entry was announced. */
  lemma {:induction false} EntryWasAnnounced(news: seq<News>, owner: Key, index: nat)
    requires HasEntry(Heard(news), owner, index)
    ensures exists n :: 0 <= n < |news| && (NumbersAt(news[n], owner, index)
                                            || (Founds(news[n], owner) && index < |news[n].founders|))
  {
    var front, last := news[..|news| - 1], news[|news| - 1];
    EntryAfter(Heard(front), last, owner, index);
    if !NumbersAt(last, owner, index) && !Founds(last, owner) {
      EntryWasAnnounced(front, owner, index);
    }
  }
}
