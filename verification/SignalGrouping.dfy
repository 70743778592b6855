/**
 Distribution of the signals mapped into a PDU over its signal groups: every group takes the
 signals it references out of the map, and what remains becomes the ungrouped signals.
 */
module SignalGrouping {
  import opened Wrappers
  import opened Multisets
  import opened PayloadPacking

  datatype SignalInfo = SignalInfo(name: string, byteOrder: string, startPos: int, length: int, initValues: InitValues)

  /**
   A signal group of the model: the paths of its signal references, if it has an element listing them,
   and whether each of its end-to-end protection properties carries data ids.
   */
  datatype SignalGroup = SignalGroup(name: string, signalRefs: Option<seq<string>>, hasDataIds: bool)

  datatype Mapping =
    | SignalMapping(path: string, info: SignalInfo)
    | GroupMapping(group: SignalGroup)
    | UnresolvedMapping

  type SignalMap = map<string, SignalInfo>

  // ---------------------------------------------------------------- single signals

  /** True stands for big endian. */
  predicate GetByteOrder(byteOrder: string) {
    byteOrder != "MOST-SIGNIFICANT-BYTE-LAST"
  }

  function ToISignal(info: SignalInfo): ISignal {
    ISignal(info.name, GetByteOrder(info.byteOrder), info.startPos, info.length, info.initValues)
  }

  function ToISignals(signals: SignalMap): map<string, ISignal> {
    map path | path in signals :: ToISignal(signals[path])
  }

  predicate SortedByStart(signals: seq<ISignal>) {
    forall i, j :: 0 <= i < j < |signals| ==> signals[i].startPos <= signals[j].startPos
  }

  function InsertByStart(signal: ISignal, sorted: seq<ISignal>): (r: seq<ISignal>)
    requires SortedByStart(sorted)
    ensures SortedByStart(r)
    ensures multiset(r) == multiset{signal} + multiset(sorted)
    ensures r != [] && (r[0] == signal || (sorted != [] && r[0] == sorted[0]))
  {
    if sorted == [] || signal.startPos <= sorted[0].startPos then [signal] + sorted
    else
      assert sorted == [sorted[0]] + sorted[1..];
      [sorted[0]] + InsertByStart(signal, sorted[1..])
  }

  /** Stands for the stable library sort. */
  function SortByStart(signals: seq<ISignal>): (r: seq<ISignal>)
    ensures SortedByStart(r)
    ensures multiset(r) == multiset(signals)
  {
    if signals == [] then []
    else
      assert signals == [signals[0]] + signals[1..];
      InsertByStart(signals[0], SortByStart(signals[1..]))
  }

  // ---------------------------------------------------------------- specification

  function PathSet(refs: seq<string>): set<string> {
    set path | path in refs
  }

  /** The signals a group takes; none if it lists no references. */
  function Taken(group: SignalGroup, signals: SignalMap): SignalMap {
    if group.signalRefs.None? then map[]
    else Restrict(signals, PathSet(group.signalRefs.value))
  }

  function Remaining(group: SignalGroup, signals: SignalMap): SignalMap {
    if group.signalRefs.None? then signals else Exclude(signals, PathSet(group.signalRefs.value))
  }

  /** A group is handed on only if it lists references and does not leave early for missing data ids. */
  predicate Complete(group: SignalGroup) {
    group.signalRefs.Some? && group.hasDataIds
  }

  function RemainingAfter(groups: seq<SignalGroup>, signals: SignalMap): SignalMap {
    if groups == [] then signals
    else Remaining(groups[|groups| - 1], RemainingAfter(groups[..|groups| - 1], signals))
  }

  /** Signals taken by groups that are then not handed on. */
  ghost function Lost(groups: seq<SignalGroup>, signals: SignalMap): multiset<ISignal> {
    if groups == [] then multiset{}
    else
      var front, last := groups[..|groups| - 1], groups[|groups| - 1];
      Lost(front, signals)
      + if Complete(last) then multiset{} else ValuesOf(ToISignals(Taken(last, RemainingAfter(front, signals))))
  }

  /** The handed-on groups are the complete ones, in order, each with exactly the signals it took, sorted. */
  ghost predicate Groups(grouped: seq<ISignalGroup>, groups: seq<SignalGroup>, signals: SignalMap) {
    if groups == [] then grouped == []
    else
      var front, last := groups[..|groups| - 1], groups[|groups| - 1];
      if Complete(last) then
        && grouped != []
        && var g := grouped[|grouped| - 1];
           && g.name == last.name
           && SortedByStart(g.isignals)
           && multiset(g.isignals) == ValuesOf(ToISignals(Taken(last, RemainingAfter(front, signals))))
           && Groups(grouped[..|grouped| - 1], front, signals)
      else Groups(grouped, front, signals)
  }

  function Mapped(mappings: seq<Mapping>): SignalMap {
    if mappings == [] then map[]
    else
      var front, last := Mapped(mappings[..|mappings| - 1]), mappings[|mappings| - 1];
      if last.SignalMapping? then front[last.path := last.info] else front
  }

  function MappedGroups(mappings: seq<Mapping>): seq<SignalGroup> {
    if mappings == [] then []
    else
      var front, last := MappedGroups(mappings[..|mappings| - 1]), mappings[|mappings| - 1];
      if last.GroupMapping? then front + [last.group] else front
  }

  ghost function InGroups(grouped: seq<ISignalGroup>): multiset<ISignal> {
    if grouped == [] then multiset{}
    else InGroups(grouped[..|grouped| - 1]) + multiset(grouped[|grouped| - 1].isignals)
  }

  // ---------------------------------------------------------------- the algorithm

  /** Taking one signal out of the map. */
  lemma ValuesOfMoved(signals: SignalMap, path: string)
    requires path in signals
    ensures ValuesOf(ToISignals(signals))
              == multiset{ToISignal(signals[path])} + ValuesOf(ToISignals(Without(signals, path)))
  {
    hide ValuesOf;
    ValuesOfRemove(ToISignals(signals), path);
    assert Without(ToISignals(signals), path) == ToISignals(Without(signals, path));
  }

  /** The loop over the references of a group. */
  method MoveReferenced(refs: seq<string>, signals: SignalMap) returns (isignals: seq<ISignal>, signals': SignalMap)
    ensures signals' == Exclude(signals, PathSet(refs))
    ensures multiset(isignals) + ValuesOf(ToISignals(signals')) == ValuesOf(ToISignals(signals))
  {
    hide ValuesOf, ToISignals;
    signals', isignals := signals, [];
    for i := 0 to |refs|
      invariant signals' == Exclude(signals, PathSet(refs[..i]))
      invariant multiset(isignals) + ValuesOf(ToISignals(signals')) == ValuesOf(ToISignals(signals))
    {
      assert PathSet(refs[..i + 1]) == PathSet(refs[..i]) + {refs[i]};
      if refs[i] in signals' {
        ValuesOfMoved(signals', refs[i]);
        isignals := isignals + [ToISignal(signals'[refs[i]])];
        signals' := Without(signals', refs[i]);
      }
    }
    assert refs[..|refs|] == refs;
  }

  lemma ToISignalsOfParts(signals: SignalMap, keys: set<string>)
    ensures ToISignals(Restrict(signals, keys)) == Restrict(ToISignals(signals), keys)
    ensures ToISignals(Exclude(signals, keys)) == Exclude(ToISignals(signals), keys)
  {
  }

  /** Everything a group does not take stays. */
  lemma ValuesOfTaken(group: SignalGroup, signals: SignalMap)
    ensures ValuesOf(ToISignals(signals))
            == ValuesOf(ToISignals(Taken(group, signals))) + ValuesOf(ToISignals(Remaining(group, signals)))
  {
    if group.signalRefs.None? {
      assert ToISignals(map[]) == map[];
    } else {
      ToISignalsOfParts(signals, PathSet(group.signalRefs.value));
      ValuesOfSplit(ToISignals(signals), PathSet(group.signalRefs.value));
    }
  }

  /** Moves the referenced signals of one group out of the map; a missing element ends the call early. */
  method ProcessSignalGroup(group: SignalGroup, signals: SignalMap, grouped: seq<ISignalGroup>)
    returns (signals': SignalMap, grouped': seq<ISignalGroup>)
    ensures signals' == Remaining(group, signals)
    ensures !Complete(group) ==> grouped' == grouped
    ensures Complete(group) ==>
              && |grouped'| == |grouped| + 1 && grouped'[..|grouped|] == grouped
              && grouped'[|grouped|].name == group.name
              && SortedByStart(grouped'[|grouped|].isignals)
              && multiset(grouped'[|grouped|].isignals) == ValuesOf(ToISignals(Taken(group, signals)))
  {
    hide ValuesOf, ToISignals, Taken;
    signals', grouped' := signals, grouped;
    if group.signalRefs.None? {
      return;
    }
    var isignals;
    isignals, signals' := MoveReferenced(group.signalRefs.value, signals);
    ValuesOfTaken(group, signals);
    if !group.hasDataIds {
      return;
    }
    grouped' := grouped + [ISignalGroup(group.name, SortByStart(isignals))];
  }

  /** The remaining signals in whatever order the hash map yields them. */
  method CollectRemaining(signals: SignalMap) returns (isignals: seq<ISignal>)
    ensures multiset(isignals) == ValuesOf(ToISignals(signals))
  {
    hide ValuesOf, ToISignals;
    isignals := [];
    var rest := signals;
    while rest != map[]
      invariant multiset(isignals) + ValuesOf(ToISignals(rest)) == ValuesOf(ToISignals(signals))
      decreases rest.Keys
    {
      var path :| path in rest;
      ValuesOfMoved(rest, path);
      isignals := isignals + [ToISignal(rest[path])];
      rest := Without(rest, path);
    }
    NoValues();
  }

  method HandleISignals(mappings: seq<Mapping>) returns (grouped: seq<ISignalGroup>, ungrouped: seq<ISignal>)
    ensures Groups(grouped, MappedGroups(mappings), Mapped(mappings))
    ensures SortedByStart(ungrouped)
    ensures multiset(ungrouped) == ValuesOf(ToISignals(RemainingAfter(MappedGroups(mappings), Mapped(mappings))))
  {
    var signals: SignalMap := map[];
    var signalGroups: seq<SignalGroup> := [];
    for i := 0 to |mappings|
      invariant signals == Mapped(mappings[..i]) && signalGroups == MappedGroups(mappings[..i])
    {
      assert mappings[..i + 1][..i] == mappings[..i];
      match mappings[i] {
        case SignalMapping(path, info) => signals := signals[path := info];
        case GroupMapping(group) => signalGroups := signalGroups + [group];
        case UnresolvedMapping =>
      }
    }
    assert mappings[..|mappings|] == mappings;
    grouped := [];
    ghost var mapped := signals;
    for i := 0 to |signalGroups|
      invariant signals == RemainingAfter(signalGroups[..i], mapped)
      invariant Groups(grouped, signalGroups[..i], mapped)
    {
      assert signalGroups[..i + 1][..i] == signalGroups[..i];
      signals, grouped := ProcessSignalGroup(signalGroups[i], signals, grouped);
    }
    assert signalGroups[..|signalGroups|] == signalGroups;
    var remaining := CollectRemaining(signals);
    ungrouped := SortByStart(remaining);
  }

  // ---------------------------------------------------------------- conservation

  /** Grouped, ungrouped and lost signals together are the mapped ones: nothing is invented or duplicated. */
  lemma {:induction false} SignalBalance(grouped: seq<ISignalGroup>, groups: seq<SignalGroup>, signals: SignalMap)
    requires Groups(grouped, groups, signals)
    ensures InGroups(grouped) + Lost(groups, signals) + ValuesOf(ToISignals(RemainingAfter(groups, signals)))
            == ValuesOf(ToISignals(signals))
    decreases |groups|
  {
    if groups != [] {
      var front, last := groups[..|groups| - 1], groups[|groups| - 1];
      ValuesOfTaken(last, RemainingAfter(front, signals));
      if Complete(last) {
        SignalBalance(grouped[..|grouped| - 1], front, signals);
      } else {
        SignalBalance(grouped, front, signals);
      }
    }
  }

  /** A reference of group `i` that no earlier group with references lists. */
  predicate FirstReference(groups: seq<SignalGroup>, i: nat, path: string)
    requires i < |groups|
  {
    && groups[i].signalRefs.Some?
    && path in groups[i].signalRefs.value
    && forall j :: 0 <= j < i && groups[j].signalRefs.Some? ==> path !in groups[j].signalRefs.value
  }

  lemma {:induction false} RemainingPaths(groups: seq<SignalGroup>, signals: SignalMap, path: string)
    ensures path in RemainingAfter(groups, signals) <==>
            && path in signals
            && forall j :: 0 <= j < |groups| && groups[j].signalRefs.Some? ==> path !in groups[j].signalRefs.value
    ensures path in RemainingAfter(groups, signals) ==> RemainingAfter(groups, signals)[path] == signals[path]
  {
    if groups != [] {
      RemainingPaths(groups[..|groups| - 1], signals, path);
    }
  }

  lemma TakenPaths(groups: seq<SignalGroup>, i: nat, signals: SignalMap, path: string)
    requires i < |groups|
    ensures path in Taken(groups[i], RemainingAfter(groups[..i], signals)) <==>
            path in signals && FirstReference(groups, i, path)
  {
    RemainingPaths(groups[..i], signals, path);
    assert forall j :: 0 <= j < i ==> groups[..i][j] == groups[j];
  }

  /** Group `i` leaves early although it took a signal. */
  ghost predicate Loses(groups: seq<SignalGroup>, i: nat, signals: SignalMap)
    requires i < |groups|
  {
    !Complete(groups[i]) && exists path :: path in signals && FirstReference(groups, i, path)
  }

  lemma LosesIff(groups: seq<SignalGroup>, i: nat, signals: SignalMap)
    requires i < |groups|
    ensures Loses(groups, i, signals) <==>
            !Complete(groups[i])
              && ValuesOf(ToISignals(Taken(groups[i], RemainingAfter(groups[..i], signals)))) != multiset{}
  {
    hide ValuesOf, RemainingAfter, FirstReference;
    var taken := Taken(groups[i], RemainingAfter(groups[..i], signals));
    ValuesOfEmpty(ToISignals(taken));
    assert ToISignals(taken).Keys == taken.Keys;
    if path :| path in signals && FirstReference(groups, i, path) {
      TakenPaths(groups, i, signals, path);
      assert path in ToISignals(taken);
    } else if path :| path in taken {
      TakenPaths(groups, i, signals, path);
      assert false;
    } else {
      assert ToISignals(taken) == map[];
    }
  }

  lemma LosesInPrefix(groups: seq<SignalGroup>, n: nat, i: nat, signals: SignalMap)
    requires i < n <= |groups|
    ensures Loses(groups[..n], i, signals) == Loses(groups, i, signals)
  {
    assert forall path :: FirstReference(groups[..n], i, path) == FirstReference(groups, i, path);
  }

  lemma {:induction false} LostNothingIff(groups: seq<SignalGroup>, signals: SignalMap)
    ensures Lost(groups, signals) == multiset{} <==> forall i :: 0 <= i < |groups| ==> !Loses(groups, i, signals)
  {
    if groups != [] {
      var n := |groups| - 1;
      LostNothingIff(groups[..n], signals);
      LosesIff(groups, n, signals);
      LostByLast(groups, signals);
      hide Lost, ValuesOf, Loses, Taken;
      forall i | 0 <= i < n
        ensures Loses(groups[..n], i, signals) == Loses(groups, i, signals)
      {
        LosesInPrefix(groups, n, i, signals);
      }
    }
  }

  lemma LostByLast(groups: seq<SignalGroup>, signals: SignalMap)
    requires groups != []
    ensures var n := |groups| - 1;
            Lost(groups, signals) == multiset{} <==>
            && Lost(groups[..n], signals) == multiset{}
            && (Complete(groups[n]) ||
                ValuesOf(ToISignals(Taken(groups[n], RemainingAfter(groups[..n], signals)))) == multiset{})
  {
    var n := |groups| - 1;
    hide ValuesOf, ToISignals, Taken, RemainingAfter, Complete;
    assert Lost(groups[..n], signals) <= Lost(groups, signals);
  }

  // ---------------------------------------------------------------- conservation of all mappings

  /** The signals of all mappings in the PDU, counted with multiplicity. */
  ghost function Entries(mappings: seq<Mapping>): multiset<ISignal> {
    if mappings == [] then multiset{}
    else
      var last := mappings[|mappings| - 1];
      Entries(mappings[..|mappings| - 1])
      + if last.SignalMapping? then multiset{AsMapped(last.info)} else multiset{}
  }

  /** A signal as its mapping describes it; only one text stands for little endian. */
  function AsMapped(info: SignalInfo): ISignal {
    ISignal(info.name, info.byteOrder != "MOST-SIGNIFICANT-BYTE-LAST", info.startPos, info.length, info.initValues)
  }

  /** The signals that a later mapping with the same path has pushed out of the map. */
  ghost function Overwritten(mappings: seq<Mapping>): multiset<ISignal> {
    if mappings == [] then multiset{}
    else
      var front, last := mappings[..|mappings| - 1], mappings[|mappings| - 1];
      Overwritten(front)
      + if last.SignalMapping? && last.path in Mapped(front) then multiset{ToISignal(Mapped(front)[last.path])}
        else multiset{}
  }

  predicate SamePath(a: Mapping, b: Mapping) {
    a.SignalMapping? && b.SignalMapping? && a.path == b.path
  }

  predicate DistinctPaths(mappings: seq<Mapping>) {
    forall i, j :: 0 <= i < j < |mappings| ==> !SamePath(mappings[i], mappings[j])
  }

  lemma ValuesOfMapped(signals: SignalMap, path: string, info: SignalInfo)
    ensures ValuesOf(ToISignals(signals[path := info])) + (if path in signals then multiset{ToISignal(signals[path])}
                                                           else multiset{})
            == ValuesOf(ToISignals(signals)) + multiset{ToISignal(info)}
  {
    hide ValuesOf, ToISignals, ToISignal;
    var more := signals[path := info];
    ValuesOfMoved(more, path);
    assert Without(more, path) == Without(signals, path);
    if path in signals {
      ValuesOfMoved(signals, path);
    } else {
      assert Without(signals, path) == signals;
    }
  }

  lemma NoValues()
    ensures ValuesOf(ToISignals(map[])) == multiset{}
  {
    assert ToISignals(map[]) == map[];
  }

  lemma HandedOnAsMapped(info: SignalInfo)
    ensures ToISignal(info) == AsMapped(info)
  {
  }

  lemma {:induction false} EntriesSplit(mappings: seq<Mapping>)
    ensures Entries(mappings) == ValuesOf(ToISignals(Mapped(mappings))) + Overwritten(mappings)
  {
    hide ValuesOf, ToISignals, ToISignal;
    if mappings == [] {
      NoValues();
    } else {
      var front, last := mappings[..|mappings| - 1], mappings[|mappings| - 1];
      EntriesSplit(front);
      if last.SignalMapping? {
        ValuesOfMapped(Mapped(front), last.path, last.info);
        HandedOnAsMapped(last.info);
        var pushed := if last.path in Mapped(front) then multiset{ToISignal(Mapped(front)[last.path])} else multiset{};
        assert Overwritten(mappings) == Overwritten(front) + pushed;
        assert Mapped(mappings) == Mapped(front)[last.path := last.info];
        assert Entries(mappings)
                 == ValuesOf(ToISignals(Mapped(front))) + multiset{ToISignal(last.info)} + Overwritten(front);
      }
    }
  }

  lemma {:induction false} MappedPaths(mappings: seq<Mapping>, path: string)
    ensures path in Mapped(mappings) <==>
            exists i :: 0 <= i < |mappings| && mappings[i].SignalMapping? && mappings[i].path == path
  {
    if mappings != [] {
      var n := |mappings| - 1;
      MappedPaths(mappings[..n], path);
      assert forall i :: 0 <= i < n ==> mappings[..n][i] == mappings[i];
    }
  }

  lemma PathRepeatedIff(mappings: seq<Mapping>, n: nat)
    requires n < |mappings| && mappings[n].SignalMapping?
    ensures mappings[n].path in Mapped(mappings[..n]) <==> exists i :: 0 <= i < n && SamePath(mappings[i], mappings[n])
  {
    MappedPaths(mappings[..n], mappings[n].path);
    hide Mapped;
    if i :| 0 <= i < n && SamePath(mappings[i], mappings[n]) {
      assert mappings[..n][i] == mappings[i];
    }
  }

  lemma {:induction false} NothingOverwrittenIff(mappings: seq<Mapping>)
    ensures Overwritten(mappings) == multiset{} <==> DistinctPaths(mappings)
  {
    if mappings != [] {
      var n := |mappings| - 1;
      NothingOverwrittenIff(mappings[..n]);
      if mappings[n].SignalMapping? {
        PathRepeatedIff(mappings, n);
      }
      OverwrittenByLast(mappings);
      hide Mapped, Overwritten;
      DistinctPathsByLast(mappings);
    }
  }

  lemma DistinctPathsByLast(mappings: seq<Mapping>)
    requires mappings != []
    ensures var n := |mappings| - 1;
            DistinctPaths(mappings) <==>
            && DistinctPaths(mappings[..n])
            && (mappings[n].SignalMapping? ==> !exists i :: 0 <= i < n && SamePath(mappings[i], mappings[n]))
  {
    var n := |mappings| - 1;
    assert forall i :: 0 <= i < n ==> mappings[..n][i] == mappings[i];
  }

  lemma OverwrittenByLast(mappings: seq<Mapping>)
    requires mappings != []
    ensures var n := |mappings| - 1;
            Overwritten(mappings) == multiset{} <==>
            && Overwritten(mappings[..n]) == multiset{}
            && !(mappings[n].SignalMapping? && mappings[n].path in Mapped(mappings[..n]))
  {
    var n := |mappings| - 1;
    hide Mapped;
    assert Overwritten(mappings[..n]) <= Overwritten(mappings);
  }

  /**
   Every signal mapped in the PDU ends in exactly one group or among the ungrouped ones, counted with multiplicity,
   exactly if no two mappings have the same path and no group that leaves early for missing data ids is the first to
   reference a mapped signal.
   */
  lemma SignalConservationIff(mappings: seq<Mapping>, grouped: seq<ISignalGroup>, ungrouped: seq<ISignal>)
    requires Groups(grouped, MappedGroups(mappings), Mapped(mappings))
    requires multiset(ungrouped) == ValuesOf(ToISignals(RemainingAfter(MappedGroups(mappings), Mapped(mappings))))
    ensures InGroups(grouped) + multiset(ungrouped) == Entries(mappings) <==>
            && DistinctPaths(mappings)
            && forall i :: 0 <= i < |MappedGroups(mappings)| ==> !Loses(MappedGroups(mappings), i, Mapped(mappings))
  {
    hide ValuesOf, Loses;
    var lost, overwritten := Lost(MappedGroups(mappings), Mapped(mappings)), Overwritten(mappings);
    SignalBalance(grouped, MappedGroups(mappings), Mapped(mappings));
    LostNothingIff(MappedGroups(mappings), Mapped(mappings));
    EntriesSplit(mappings);
    NothingOverwrittenIff(mappings);
    assert InGroups(grouped) + multiset(ungrouped) + (lost + overwritten) == Entries(mappings);
    NothingMissingIff(InGroups(grouped) + multiset(ungrouped), lost, overwritten);
  }

  lemma NothingMissingIff(kept: multiset<ISignal>, lost: multiset<ISignal>, overwritten: multiset<ISignal>)
    ensures kept == kept + (lost + overwritten) <==> lost == multiset{} && overwritten == multiset{}
  {
    assert |kept + (lost + overwritten)| == |kept| + |lost| + |overwritten|;
  }

  // ---------------------------------------------------------------- where a signal ends up

  /** The number of complete groups before group `i`. */
  function CompleteBefore(groups: seq<SignalGroup>, i: nat): (n: nat)
    requires i <= |groups|
    ensures n <= i
  {
    if i == 0 then 0 else CompleteBefore(groups, i - 1) + if Complete(groups[i - 1]) then 1 else 0
  }

  lemma {:induction false} CompleteInPrefix(groups: seq<SignalGroup>, n: nat, i: nat)
    requires i <= n <= |groups|
    ensures CompleteBefore(groups[..n], i) == CompleteBefore(groups, i)
  {
    if i > 0 {
      CompleteInPrefix(groups, n, i - 1);
    }
  }

  /**
   A complete group is handed on in its place and under its name, with exactly the mapped signals that it is the first
   one to list.
   */
  lemma {:induction false} GroupHandedOn(grouped: seq<ISignalGroup>, groups: seq<SignalGroup>, signals: SignalMap,
                                         i: nat)
    requires Groups(grouped, groups, signals) && i < |groups| && Complete(groups[i])
    ensures |grouped| == CompleteBefore(groups, |groups|) && CompleteBefore(groups, i) < |grouped|
    ensures var g := grouped[CompleteBefore(groups, i)];
            && g.name == groups[i].name && SortedByStart(g.isignals)
            && multiset(g.isignals) == ValuesOf(ToISignals(Taken(groups[i], RemainingAfter(groups[..i], signals))))
    decreases |groups|
  {
    hide ValuesOf, ToISignals, Taken, RemainingAfter;
    var n := |groups| - 1;
    GroupedCount(grouped, groups, signals);
    if i < n {
      CompleteInPrefix(groups, n, i);
      CompleteInPrefix(groups, n, n);
      assert groups[..n][..i] == groups[..i];
      GroupHandedOn(if Complete(groups[n]) then grouped[..|grouped| - 1] else grouped, groups[..n], signals, i);
    } else {
      assert groups[..i] == groups[..|groups| - 1];
    }
  }

  lemma {:induction false} GroupedCount(grouped: seq<ISignalGroup>, groups: seq<SignalGroup>, signals: SignalMap)
    requires Groups(grouped, groups, signals)
    ensures |grouped| == CompleteBefore(groups, |groups|)
    decreases |groups|
  {
    if groups != [] {
      var n := |groups| - 1;
      CompleteInPrefix(groups, n, n);
      GroupedCount(if Complete(groups[n]) then grouped[..|grouped| - 1] else grouped, groups[..n], signals);
    }
  }

  /**
   A mapped signal is in the first group that lists it, if that group is handed on, and ungrouped if none lists it.
   */
  lemma SignalPlaced(mappings: seq<Mapping>, grouped: seq<ISignalGroup>, ungrouped: seq<ISignal>, path: string)
    requires Groups(grouped, MappedGroups(mappings), Mapped(mappings))
    requires multiset(ungrouped) == ValuesOf(ToISignals(RemainingAfter(MappedGroups(mappings), Mapped(mappings))))
    requires path in Mapped(mappings)
    ensures var groups, signal := MappedGroups(mappings), AsMapped(Mapped(mappings)[path]);
            && (forall i :: 0 <= i < |groups| && Complete(groups[i]) && FirstReference(groups, i, path) ==>
                  && CompleteBefore(groups, i) < |grouped|
                  && grouped[CompleteBefore(groups, i)].name == groups[i].name
                  && signal in grouped[CompleteBefore(groups, i)].isignals)
            && (Unlisted(groups, path) ==> signal in ungrouped)
  {
    var groups, signals := MappedGroups(mappings), Mapped(mappings);
    HandedOnAsMapped(signals[path]);
    forall i | 0 <= i < |groups| && Complete(groups[i]) && FirstReference(groups, i, path)
      ensures CompleteBefore(groups, i) < |grouped|
      ensures grouped[CompleteBefore(groups, i)].name == groups[i].name
      ensures AsMapped(signals[path]) in grouped[CompleteBefore(groups, i)].isignals
    {
      GroupHandedOn(grouped, groups, signals, i);
      TakenPaths(groups, i, signals, path);
      RemainingPaths(groups[..i], signals, path);
      var taken := Taken(groups[i], RemainingAfter(groups[..i], signals));
      ValueInValues(taken, path);
      assert AsMapped(signals[path]) in multiset(grouped[CompleteBefore(groups, i)].isignals);
    }
    if Unlisted(groups, path) {
      RemainingPaths(groups, signals, path);
      ValueInValues(RemainingAfter(groups, signals), path);
      assert AsMapped(signals[path]) in multiset(ungrouped);
    }
  }

  lemma ValueInValues(signals: SignalMap, path: string)
    requires path in signals
    ensures ToISignal(signals[path]) in ValuesOf(ToISignals(signals))
  {
    ValuesOfMoved(signals, path);
  }

  /** Signal groups are collected in the order of their mappings, all of them. */
  lemma {:induction false} GroupCollected(mappings: seq<Mapping>, k: nat)
    requires k < |mappings| && mappings[k].GroupMapping?
    ensures |MappedGroups(mappings[..k])| < |MappedGroups(mappings)|
    ensures MappedGroups(mappings)[|MappedGroups(mappings[..k])|] == mappings[k].group
    ensures MappedGroups(mappings[..k]) <= MappedGroups(mappings)
    decreases |mappings|
  {
    var n := |mappings| - 1;
    if k < n {
      assert mappings[..n][..k] == mappings[..k];
      GroupCollected(mappings[..n], k);
    }
  }

  /** A path is mapped to what the last mapping with that path says. */
  lemma {:induction false} LastMappingWins(mappings: seq<Mapping>, k: nat)
    requires k < |mappings| && mappings[k].SignalMapping?
    requires forall j :: k < j < |mappings| ==> !SamePath(mappings[k], mappings[j])
    ensures mappings[k].path in Mapped(mappings) && Mapped(mappings)[mappings[k].path] == mappings[k].info
    decreases |mappings|
  {
    var n := |mappings| - 1;
    if k < n {
      assert !SamePath(mappings[k], mappings[n]);
      LastMappingWins(mappings[..n], k);
    }
  }

  /** A signal group that is handed on and a signal that no group lists make packing the PDU panic. */
  lemma MixedSignalsPanic(mappings: seq<Mapping>, grouped: seq<ISignalGroup>, ungrouped: seq<ISignal>, unused: bool,
                          length: int, bigEndian: bool)
    requires Groups(grouped, MappedGroups(mappings), Mapped(mappings))
    requires multiset(ungrouped) == ValuesOf(ToISignals(RemainingAfter(MappedGroups(mappings), Mapped(mappings))))
    ensures var groups := MappedGroups(mappings);
            && (grouped != [] && ungrouped != [] <==>
                && (exists i :: 0 <= i < |groups| && Complete(groups[i]))
                && exists path :: path in Mapped(mappings) && Unlisted(groups, path))
    ensures grouped != [] && ungrouped != [] ==>
              Payload(unused, ungrouped, grouped, length, bigEndian) == Failure(BothSignalKinds)
  {
    var groups, signals := MappedGroups(mappings), Mapped(mappings);
    GroupedIff(grouped, groups, signals);
    var remaining := RemainingAfter(groups, signals);
    ValuesOfEmpty(ToISignals(remaining));
    assert ToISignals(remaining).Keys == remaining.Keys;
    assert ungrouped != [] <==> multiset(ungrouped) != multiset{} by {
      assert |multiset(ungrouped)| == |ungrouped|;
    }
    forall path
      ensures path in remaining <==> path in signals && Unlisted(groups, path)
    {
      RemainingPaths(groups, signals, path);
    }
    hide ValuesOf, RemainingAfter, ToISignals, Groups;
    assert ungrouped != [] <==> remaining.Keys != {};
  }

  predicate Unlisted(groups: seq<SignalGroup>, path: string) {
    forall j :: 0 <= j < |groups| && groups[j].signalRefs.Some? ==> path !in groups[j].signalRefs.value
  }

  lemma {:induction false} GroupedIff(grouped: seq<ISignalGroup>, groups: seq<SignalGroup>, signals: SignalMap)
    requires Groups(grouped, groups, signals)
    ensures grouped != [] <==> exists i :: 0 <= i < |groups| && Complete(groups[i])
    decreases |groups|
  {
    if groups != [] {
      var n := |groups| - 1;
      assert forall i :: 0 <= i < n ==> groups[..n][i] == groups[i];
      if !Complete(groups[n]) {
        GroupedIff(grouped, groups[..n], signals);
      }
    }
  }

  /** Loss does occur: one signal, referenced by one group without data ids, appears nowhere. */
  lemma MissingDataIdsLoseSignals(info: SignalInfo)
    ensures var mappings := [SignalMapping("/s", info), GroupMapping(SignalGroup("g", Some(["/s"]), false))];
            && Mapped(mappings) == map["/s" := info]
            && Groups([], MappedGroups(mappings), Mapped(mappings))
            && RemainingAfter(MappedGroups(mappings), Mapped(mappings)) == map[]
  {
    var signal, group := SignalMapping("/s", info), GroupMapping(SignalGroup("g", Some(["/s"]), false));
    var one, two := [signal], [signal, group];
    assert one[..0] == [] && two[..1] == one;
    assert Mapped(one[..0]) == map[] && MappedGroups(one[..0]) == [];
    assert Mapped([signal]) == map["/s" := info] && MappedGroups([signal]) == [];
    assert MappedGroups([signal, group]) == [group.group];
    assert "/s" in PathSet(group.group.signalRefs.value);
  }

  /** So does overwriting: of two mappings with the same path the first one is in the map no more. */
  lemma RepeatedPathLosesSignal(a: SignalInfo, b: SignalInfo)
    ensures var mappings := [SignalMapping("/s", a), SignalMapping("/s", b)];
            && MappedGroups(mappings) == [] && Mapped(mappings) == map["/s" := b]
            && Entries(mappings) == multiset{AsMapped(a), AsMapped(b)}
  {
    var first, second := SignalMapping("/s", a), SignalMapping("/s", b);
    var one, two := [first], [first, second];
    assert one[..0] == [] && two[..1] == one;
    assert Mapped(one[..0]) == map[] && MappedGroups(one[..0]) == [] && Entries(one[..0]) == multiset{};
    assert Mapped(one) == map["/s" := a] && MappedGroups(one) == [] && Entries(one) == multiset{AsMapped(a)};
  }
}
