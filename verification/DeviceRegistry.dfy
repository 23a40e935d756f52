/** The device registry: detectors are asked in the order they were registered, and a default
    profile stands in when none of them finds a match. */
module DeviceRegistry {
  import opened Options
  import opened GoStrings
  import opened GlobPattern
  import opened Detection

  /** The implementations of the DeviceDetector interface. */
  datatype Detector = ByPath(paths: PathDetector) | BySort(sorter: ProfileDetector)

  /** What a detector holds, whatever order it keeps it in. */
  datatype View = PathView(patterns: map<GoString, Profile>) | SortView(kind: Kind, profiles: multiset<Profile>)
  {
    function GetPriority(): int {
      if PathView? then 100 else
        match kind
        case Headers => 90
        case Rules => 80
        case Payload => 50
    }

    /** Some registered profile matches. */
    ghost predicate HasMatch(scan: Scan) {
      if PathView? then exists k :: k in patterns && PatternAnswers(scan.path, k)
      else Looks(kind, scan) && exists p :: p in profiles && Matches(kind, scan, p)
    }

    /** A profile the detector may answer with. */
    ghost predicate MayAnswer(scan: Scan, p: Profile) {
      if PathView? then PathAnswer(patterns, scan.path, Some(p))
      else Answer(kind, profiles, scan, Some(p))
    }
  }

  ghost function ViewOf(d: Detector): View
    reads match d case ByPath(paths) => {paths as object} case BySort(sorter) => {sorter as object}
  {
    match d
    case ByPath(paths) => PathView(paths.profiles)
    case BySort(sorter) => SortView(sorter.kind, multiset(sorter.profiles))
  }

  /** Dynamic dispatch to the detector's own DetectDevice. */
  method Ask(d: Detector, scan: Scan) returns (r: Option<Profile>)
    modifies if d.BySort? then {d.sorter} else {}
    ensures ViewOf(d) == old(ViewOf(d))
    ensures r.Some? <==> ViewOf(d).HasMatch(scan)
    ensures r.Some? ==> ViewOf(d).MayAnswer(scan, r.value)
  {
    hide Matches, PatternAnswers, Looks;
    match d
    case ByPath(paths) =>
      r := paths.DetectDevice(scan);
      PathAnswerMeans(paths.profiles, scan.path, r);
    case BySort(sorter) =>
      r := sorter.DetectDevice(scan);
  }

  lemma PathAnswerMeans(profiles: map<GoString, Profile>, path: GoString, r: Option<Profile>)
    requires PathAnswer(profiles, path, r)
    ensures r.Some? <==> exists k :: k in profiles && PatternAnswers(path, k)
  {
    hide *;
    PathAnswerUnique(profiles, path);
  }

  /** `who` is the first registered detector with a match, |views| if there is none. */
  ghost predicate FirstToMatch(views: seq<View>, scan: Scan, who: nat) {
    && who <= |views|
    && (forall j :: 0 <= j < who ==> !views[j].HasMatch(scan))
    && (who < |views| ==> views[who].HasMatch(scan))
  }

  class Registry {
    var detectors: seq<Detector>
    var defaultProfile: Option<Profile>
    ghost var sorters: set<ProfileDetector>   // the detectors that re-sort themselves

    ghost predicate Valid()
      reads this
    {
      forall i :: 0 <= i < |detectors| && detectors[i].BySort? ==> detectors[i].sorter in sorters
    }

    /** The registered detectors hold what `views` says, in registration order. */
    ghost predicate Holds(views: seq<View>)
      reads *
    {
      |views| == |detectors| && forall i :: 0 <= i < |detectors| ==> ViewOf(detectors[i]) == views[i]
    }

    constructor ()
      ensures Valid() && detectors == [] && defaultProfile == None && sorters == {}
    {
      detectors := [];
      defaultProfile := None;
      sorters := {};
    }

    method RegisterDetector(detector: Detector)
      requires Valid()
      modifies this`detectors, this`sorters
      ensures Valid() && detectors == old(detectors) + [detector]
      ensures sorters == old(sorters) + if detector.BySort? then {detector.sorter} else {}
    {
      detectors := detectors + [detector];
      if detector.BySort? {
        sorters := sorters + {detector.sorter};
      }
    }

    method SetDefaultProfile(profile: Option<Profile>)
      modifies this`defaultProfile
      ensures defaultProfile == profile
    {
      defaultProfile := profile;
    }

    /** DetectDevice; None stands for its error. `who` is the detector that answered,
        |detectors| if none did. Detectors may be re-sorted, nothing else changes. */
    method DetectDevice(scan: Scan, ghost views: seq<View>) returns (r: Option<Profile>, ghost who: nat)
      requires Valid() && Holds(views)
      modifies sorters
      ensures Holds(views)
      ensures FirstToMatch(views, scan, who)
      ensures if who < |views| then r.Some? && views[who].MayAnswer(scan, r.value) else r == defaultProfile
    {
      hide View.HasMatch, View.MayAnswer, ViewOf;
      who := 0;
      for i := 0 to |detectors|
        invariant who == i
        invariant Holds(views)
        invariant forall j :: 0 <= j < i ==> !views[j].HasMatch(scan)
      {
        var found := Ask(detectors[i], scan);
        if found.Some? {
          return found, i;
        }
        who := i + 1;
      }
      return defaultProfile, who;
    }
  }

  // ---------------------------------------------------------------- order and priority

  predicate NonincreasingPriority(views: seq<View>) {
    forall i, j :: 0 <= i < j < |views| ==> views[i].GetPriority() >= views[j].GetPriority()
  }

  /** Of one detector of each kind, only one order of registration falls in priority. */
  lemma UsualOrder(views: seq<View>)
    requires |views| == 4
    requires forall i, j :: 0 <= i < j < 4 ==> !SameKind(views[i], views[j])
    ensures NonincreasingPriority(views) <==>
              && views[0].PathView?
              && views[1].SortView? && views[1].kind == Headers
              && views[2].SortView? && views[2].kind == Rules
              && views[3].SortView? && views[3].kind == Payload
  {
    assert forall v: View, w: View :: v.GetPriority() == w.GetPriority() ==> SameKind(v, w);
    if NonincreasingPriority(views) {
      assert views[0].GetPriority() > views[1].GetPriority() > views[2].GetPriority() > views[3].GetPriority();
    }
  }

  /** The detector that answers has the highest priority among those with a match, and the
      default stands in only if none has one. */
  ghost predicate HighestAnswers(views: seq<View>, scan: Scan) {
    forall who: nat, j :: FirstToMatch(views, scan, who) && 0 <= j < |views| && views[j].HasMatch(scan) ==>
      who < |views| && views[j].GetPriority() <= views[who].GetPriority()
  }

  /** What registering profiles with a detector can make it hold. */
  ghost predicate Registrable(v: View) {
    if v.PathView? then
      forall k :: k in v.patterns ==> v.patterns[k].detection.method_ == "path" && v.patterns[k].detection.pattern == k
    else forall p :: p in v.profiles ==> Accepts(v.kind, p)
  }

  /** The same implementations registered in the same order, holding whatever they may. */
  ghost predicate SameKinds(views: seq<View>, others: seq<View>) {
    |views| == |others| &&
    forall i :: 0 <= i < |views| ==> Registrable(others[i]) && SameKind(views[i], others[i])
  }

  predicate SameKind(v: View, w: View) {
    if v.PathView? then w.PathView? else w.SortView? && w.kind == v.kind
  }

  lemma RegisteredByPriority(views: seq<View>, scan: Scan)
    requires NonincreasingPriority(views)
    ensures HighestAnswers(views, scan)
  {
    hide View.HasMatch, View.GetPriority;
  }

  /** A request that some profile of any kind matches. */
  const PROBE: Scan := Scan("", map[], {}, 1, Some(map[]))

  function MatchingProfile(method_: string): Profile {
    Profile("", "", {}, Config(method_, "", "", "", map[], [], 0))
  }

  function Holding(v: View, some: bool): View {
    if v.PathView? then PathView(if some then map["" := MatchingProfile("path")] else map[])
    else
      var method_ := match v.kind case Headers => "header" case Payload => "payload" case Rules => "rules";
      SortView(v.kind, if some then multiset{MatchingProfile(method_)} else multiset{})
  }

  lemma HoldingMatches(v: View, some: bool)
    ensures Registrable(Holding(v, some)) && SameKind(v, Holding(v, some))
    ensures Holding(v, some).GetPriority() == v.GetPriority()
    ensures Holding(v, some).HasMatch(PROBE) <==> some
  {
    hide MatchesPattern;
    if some {
      if v.PathView? {
        assert PatternAnswers("", "") by { SpelledAlike(""); }
      } else {
        var held := Holding(v, true).profiles;
        assert |held| == 1 && forall p :: p in held ==> Matches(v.kind, PROBE, p);
        var p :| p in held;
      }
    }
  }

  lemma SameKindsSamePriority(views: seq<View>, others: seq<View>)
    requires SameKinds(views, others) && NonincreasingPriority(views)
    ensures NonincreasingPriority(others)
  {
    assert forall i :: 0 <= i < |views| ==> SameKind(views[i], others[i]) ==>
      views[i].GetPriority() == others[i].GetPriority();
  }

  /** GetPriority is never consulted: asking detectors in registration order gives the match of
      highest priority, whatever profiles they hold and whatever the request, exactly when they
      were registered by falling priority. */
  lemma FirstIsHighestExactly(views: seq<View>)
    ensures (forall others: seq<View>, scan :: SameKinds(views, others) ==> HighestAnswers(others, scan))
            <==> NonincreasingPriority(views)
  {
    if NonincreasingPriority(views) {
      hide *;
      forall others, scan | SameKinds(views, others) ensures HighestAnswers(others, scan) {
        SameKindsSamePriority(views, others);
        RegisteredByPriority(others, scan);
      }
    } else {
      hide View.HasMatch, View.GetPriority, Registrable, SameKind, Holding;
      var i, j :| 0 <= i < j < |views| && views[i].GetPriority() < views[j].GetPriority();
      var others := seq(|views|, k requires 0 <= k < |views| => Holding(views[k], k == i || k == j));
      forall k | 0 <= k < |views|
        ensures Registrable(others[k]) && SameKind(views[k], others[k])
        ensures others[k].GetPriority() == views[k].GetPriority()
        ensures others[k].HasMatch(PROBE) <==> k == i || k == j
      {
        HoldingMatches(views[k], k == i || k == j);
      }
      assert SameKinds(views, others) && FirstToMatch(others, PROBE, i);
      assert !HighestAnswers(others, PROBE);
    }
  }

  /** A payload detector registered before a path detector wins, although its priority is lower. */
  method RegistrationOrderDecides(low: Profile, high: Profile, scan: Scan) returns (r: Option<Profile>)
    requires low.detection.method_ == "payload" && Looks(Payload, scan) && Matches(Payload, scan, low)
    requires high.detection.method_ == "path" && high.detection.pattern == scan.path
    ensures r == Some(low)
  {
    hide Matches, PatternAnswers;
    var payloads := new ProfileDetector(Payload);
    payloads.RegisterProfile(low);
    var paths := new PathDetector();
    paths.RegisterProfile(high);
    var registry := new Registry();
    registry.RegisterDetector(BySort(payloads));
    registry.RegisterDetector(ByPath(paths));
    ghost var views := [ViewOf(BySort(payloads)), ViewOf(ByPath(paths))];
    assert low in views[0].profiles;
    assert views[0].HasMatch(scan);
    ghost var who;
    r, who := registry.DetectDevice(scan, views);
  }
}
