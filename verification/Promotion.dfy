/** Promotion of learnings: which ones are flagged as candidates, and how a scope climbs
    (apps/api/src/agenticqueue_api/learnings/promotion.py). */
module Promotion {
  import opened Base
  import opened Learnings

  /** A learning as promotion sees it: the project of its task, if any, and the normalized title and rule.
      Learnings are numbered in creation order. */
  datatype Entry = Entry(project: Option<int>, scope: Scope, status: Status, title: string, rule: string,
    eligible: bool)

  /** A confirmed draft: the learning it went into and the project of its task. */
  datatype Confirmation = Confirmation(learning: nat, project: int)

  /** The group that a learning counts in: its project and text at task scope, its text at project scope. */
  datatype GroupKey = TaskKey(project: int, title: string, rule: string) | ProjectKey(title: string, rule: string)

  /** Why a promotion is refused. */
  datatype Refusal = UnknownLearning | InactiveLearning | WrongScope

  predicate InPlay(c: Entry) {
    c.status == Active && c.scope != GlobalScope
  }

  function KeyOf(c: Entry): Option<GroupKey> {
    if !InPlay(c) then None
    else if c.scope == ProjectScope then Some(ProjectKey(c.title, c.rule))
    else if c.project.Some? then Some(TaskKey(c.project.value, c.title, c.rule))
    else None
  }

  // ----- occurrences

  /** The projects of the drafts confirmed into learning `i`, in draft order. */
  function DraftProjects(confirmed: seq<Confirmation>, i: nat): seq<int> {
    if confirmed == [] then []
    else
      var last := confirmed[|confirmed| - 1];
      DraftProjects(confirmed[..|confirmed| - 1], i) + if last.learning == i then [last.project] else []
  }

  lemma DraftProjectsStep(confirmed: seq<Confirmation>, n: nat, i: nat)
    requires n < |confirmed|
    ensures DraftProjects(confirmed[..n + 1], i)
         == DraftProjects(confirmed[..n], i) + if confirmed[n].learning == i then [confirmed[n].project] else []
  {
    assert confirmed[..n + 1][..n] == confirmed[..n];
  }

  function Filed(projects: map<nat, seq<int>>, i: nat): seq<int> {
    if i in projects then projects[i] else []
  }

  function ProjectList(c: Entry): seq<int> {
    if c.project.Some? then [c.project.value] else []
  }

  /** How often a learning occurred: once in its own project and once for each draft confirmed into it. */
  function TotalOf(c: Entry, drafts: seq<int>): nat { |ProjectList(c)| + |drafts| }

  function ProjectsOf(c: Entry, drafts: seq<int>): set<int> {
    (set p | p in ProjectList(c)) + (set p | p in drafts)
  }

  /** Occurrences of a group among the first `n` learnings. */
  ghost function GroupTotal(cs: seq<Entry>, confirmed: seq<Confirmation>, key: GroupKey, n: nat): nat
    requires n <= |cs|
  {
    if n == 0 then 0
    else
      GroupTotal(cs, confirmed, key, n - 1)
        + (if KeyOf(cs[n - 1]) == Some(key) then TotalOf(cs[n - 1], DraftProjects(confirmed, n - 1)) else 0)
  }

  /** Projects in which a group occurred, among the first `n` learnings. */
  ghost function GroupProjects(cs: seq<Entry>, confirmed: seq<Confirmation>, key: GroupKey, n: nat): set<int>
    requires n <= |cs|
  {
    if n == 0 then {}
    else
      GroupProjects(cs, confirmed, key, n - 1)
        + (if KeyOf(cs[n - 1]) == Some(key) then ProjectsOf(cs[n - 1], DraftProjects(confirmed, n - 1)) else {})
  }

  predicate MeetsThreshold(key: GroupKey, total: nat, projects: nat) {
    if key.TaskKey? then total >= 2 else total >= 3 && projects >= 2
  }

  /** The oldest member of a group that meets its threshold: twice within a project at task scope, three times
      over at least two projects at project scope. */
  ghost predicate ShouldFlag(cs: seq<Entry>, confirmed: seq<Confirmation>, i: nat)
    requires i < |cs|
  {
    && KeyOf(cs[i]).Some?
    && (forall j :: 0 <= j < i ==> KeyOf(cs[j]) != KeyOf(cs[i]))
    && var key := KeyOf(cs[i]).value;
       MeetsThreshold(key, GroupTotal(cs, confirmed, key, |cs|), |GroupProjects(cs, confirmed, key, |cs|)|)
  }

  /** What one sweep does to the flags. */
  ghost predicate Swept(before: seq<Entry>, confirmed: seq<Confirmation>, after: seq<Entry>) {
    && |after| == |before|
    && forall i :: 0 <= i < |before| ==>
         after[i] == before[i].(eligible :=
           if InPlay(before[i]) then ShouldFlag(before, confirmed, i)
           else before[i].eligible && before[i].scope != GlobalScope)
  }

  // ----- the sweep as the service runs it

  datatype Occurrence = Occurrence(learning: nat, key: Option<GroupKey>, total: nat, projects: set<int>)

  function OccurrenceOf(cs: seq<Entry>, confirmed: seq<Confirmation>, i: nat): Occurrence
    requires i < |cs|
  {
    var drafts := DraftProjects(confirmed, i);
    Occurrence(i, KeyOf(cs[i]), TotalOf(cs[i], drafts), ProjectsOf(cs[i], drafts))
  }

  function Occurrences(cs: seq<Entry>, confirmed: seq<Confirmation>, n: nat): seq<Occurrence>
    requires n <= |cs|
  {
    if n == 0 then []
    else if InPlay(cs[n - 1]) then Occurrences(cs, confirmed, n - 1) + [OccurrenceOf(cs, confirmed, n - 1)]
    else Occurrences(cs, confirmed, n - 1)
  }

  function InGroup(os: seq<Occurrence>, key: GroupKey): seq<Occurrence> {
    if os == [] then []
    else if os[|os| - 1].key == Some(key) then InGroup(os[..|os| - 1], key) + [os[|os| - 1]]
    else InGroup(os[..|os| - 1], key)
  }

  function SumTotals(os: seq<Occurrence>): nat {
    if os == [] then 0 else SumTotals(os[..|os| - 1]) + os[|os| - 1].total
  }

  function AllProjects(os: seq<Occurrence>): set<int> {
    if os == [] then {} else AllProjects(os[..|os| - 1]) + os[|os| - 1].projects
  }

  ghost predicate IsGrouping(os: seq<Occurrence>, groups: map<GroupKey, seq<Occurrence>>) {
    forall key :: if key in groups then groups[key] == InGroup(os, key) && groups[key] != [] else InGroup(os, key) == []
  }

  /** The occurrences of one group among the first `n` learnings, oldest first. */
  ghost function GroupList(cs: seq<Entry>, confirmed: seq<Confirmation>, key: GroupKey, n: nat): seq<Occurrence>
    requires n <= |cs|
  {
    if n == 0 then []
    else if KeyOf(cs[n - 1]) == Some(key) then
      GroupList(cs, confirmed, key, n - 1) + [OccurrenceOf(cs, confirmed, n - 1)]
    else GroupList(cs, confirmed, key, n - 1)
  }

  lemma {:induction false} GroupListIsGroup(cs: seq<Entry>, confirmed: seq<Confirmation>, key: GroupKey, n: nat)
    requires n <= |cs|
    ensures InGroup(Occurrences(cs, confirmed, n), key) == GroupList(cs, confirmed, key, n)
  {
    if n == 0 {
    } else {
      GroupListIsGroup(cs, confirmed, key, n - 1);
      var before, last := Occurrences(cs, confirmed, n - 1), OccurrenceOf(cs, confirmed, n - 1);
      assert (before + [last])[..|before|] == before;
    }
  }

  lemma TotalsAppend(os: seq<Occurrence>, o: Occurrence)
    ensures SumTotals(os + [o]) == SumTotals(os) + o.total && AllProjects(os + [o]) == AllProjects(os) + o.projects
  {
    assert (os + [o])[..|os|] == os;
  }

  /** A group list adds up to what counting over the learnings directly gives. */
  lemma {:induction false} GroupCounts(cs: seq<Entry>, confirmed: seq<Confirmation>, key: GroupKey, n: nat)
    requires n <= |cs|
    ensures var group := GroupList(cs, confirmed, key, n);
            SumTotals(group) == GroupTotal(cs, confirmed, key, n)
              && AllProjects(group) == GroupProjects(cs, confirmed, key, n)
  {
    if n == 0 {
    } else {
      GroupCounts(cs, confirmed, key, n - 1);
      var before, last := GroupList(cs, confirmed, key, n - 1), OccurrenceOf(cs, confirmed, n - 1);
      if KeyOf(cs[n - 1]) == Some(key) {
        TotalsAppend(before, last);
        assert GroupList(cs, confirmed, key, n) == before + [last];
      } else {
        assert GroupList(cs, confirmed, key, n) == before;
      }
    }
  }

  /** A group list starts with the oldest learning of the group. */
  lemma {:induction false} GroupHead(cs: seq<Entry>, confirmed: seq<Confirmation>, key: GroupKey, n: nat)
    requires n <= |cs|
    ensures var group := GroupList(cs, confirmed, key, n);
            if group == [] then forall j :: 0 <= j < n ==> KeyOf(cs[j]) != Some(key)
            else var i := group[0].learning;
                 i < n && KeyOf(cs[i]) == Some(key) && forall j :: 0 <= j < i ==> KeyOf(cs[j]) != Some(key)
  {
    if n == 0 {
    } else {
      GroupHead(cs, confirmed, key, n - 1);
    }
  }

  class LearningPromotion {
    var learnings: seq<Entry>
    var confirmed: seq<Confirmation>

    constructor (learnings: seq<Entry>, confirmed: seq<Confirmation>)
      ensures this.learnings == learnings && this.confirmed == confirmed
    {
      this.learnings, this.confirmed := learnings, confirmed;
    }

    method ProjectsByLearning() returns (projects: map<nat, seq<int>>)
      ensures forall i :: DraftProjects(confirmed, i) == Filed(projects, i)
    {
      projects := map[];
      for n := 0 to |confirmed|
        invariant forall i :: DraftProjects(confirmed[..n], i) == Filed(projects, i)
      {
        var c := confirmed[n];
        ghost var before := projects;
        projects := projects[c.learning := Filed(projects, c.learning) + [c.project]];
        forall i: nat ensures DraftProjects(confirmed[..n + 1], i) == Filed(projects, i) {
          DraftProjectsStep(confirmed, n, i);
          assert DraftProjects(confirmed[..n], i) == Filed(before, i);
        }
      }
      assert confirmed[..|confirmed|] == confirmed;
    }

    method CollectOccurrences() returns (os: seq<Occurrence>)
      ensures os == Occurrences(learnings, confirmed, |learnings|)
    {
      var projects := ProjectsByLearning();
      os := [];
      for i := 0 to |learnings|
        invariant os == Occurrences(learnings, confirmed, i)
      {
        if InPlay(learnings[i]) {
          var merged := Filed(projects, i);
          assert merged == DraftProjects(confirmed, i);
          os := os + [Occurrence(i, KeyOf(learnings[i]), TotalOf(learnings[i], merged),
            ProjectsOf(learnings[i], merged))];
        }
      }
    }

    method GroupOccurrences(os: seq<Occurrence>) returns (groups: map<GroupKey, seq<Occurrence>>)
      ensures IsGrouping(os, groups)
    {
      groups := map[];
      for i := 0 to |os|
        invariant IsGrouping(os[..i], groups)
      {
        assert os[..i + 1][..i] == os[..i];
        if os[i].key.Some? {
          var key := os[i].key.value;
          groups := groups[key := (if key in groups then groups[key] else []) + [os[i]]];
        }
      }
      assert os[..|os|] == os;
    }

    /** The first learning of every group that meets its threshold. */
    method EligibleLearnings(os: seq<Occurrence>) returns (eligible: set<nat>)
      ensures forall i :: i in eligible <==> exists key :: Chosen(os, key, i)
    {
      var groups := GroupOccurrences(os);
      eligible := {};
      var pending := groups.Keys;
      while pending != {}
        invariant pending <= groups.Keys
        invariant forall i :: i in eligible <==> exists key :: key in groups && key !in pending && Chosen(os, key, i)
      {
        var key :| key in pending;
        var group := groups[key];
        ghost var before := eligible;
        if MeetsThreshold(key, SumTotals(group), |AllProjects(group)|) {
          eligible := eligible + {group[0].learning};
        }
        pending := pending - {key};
        forall i ensures i in eligible <==> exists k :: k in groups && k !in pending && Chosen(os, k, i) {
          if i in eligible && i !in before { assert Chosen(os, key, i); }
        }
      }
      assert forall key, i :: Chosen(os, key, i) ==> key in groups;
    }

    /** Flags every oldest member of a group over its threshold, and clears every other flag in play and every
        flag at global scope; returns the flagged learnings in creation order. */
    method AutoPromoteCandidates() returns (candidates: seq<nat>)
      modifies this`learnings
      ensures Swept(old(learnings), confirmed, learnings)
      ensures forall i, j :: 0 <= i < j < |candidates| ==> candidates[i] < candidates[j]
      ensures forall i: nat :: i in candidates <==> i < |learnings| && InPlay(learnings[i]) && learnings[i].eligible
    {
      var os := CollectOccurrences();
      var eligible := EligibleLearnings(os);
      forall i: nat | i < |learnings| ensures i in eligible <==> ShouldFlag(learnings, confirmed, i) {
        EligibleIsShouldFlag(learnings, confirmed, i);
      }
      candidates := FlagInPlay(eligible);
      ClearGlobals();
    }

    /** Sets the flag of every learning in play; returns the flagged ones in creation order. */
    method FlagInPlay(eligible: set<nat>) returns (candidates: seq<nat>)
      modifies this`learnings
      ensures |learnings| == |old(learnings)|
      ensures forall i :: 0 <= i < |learnings| ==>
                learnings[i] == if InPlay(old(learnings)[i]) then old(learnings)[i].(eligible := i in eligible)
                  else old(learnings)[i]
      ensures forall i, j :: 0 <= i < j < |candidates| ==> candidates[i] < candidates[j]
      ensures forall i: nat :: i in candidates <==> i < |learnings| && InPlay(learnings[i]) && i in eligible
    {
      candidates := [];
      for i := 0 to |learnings|
        invariant |learnings| == |old(learnings)|
        invariant forall j :: i <= j < |learnings| ==> learnings[j] == old(learnings)[j]
        invariant forall j :: 0 <= j < i ==>
          learnings[j] == if InPlay(old(learnings)[j]) then old(learnings)[j].(eligible := j in eligible)
            else old(learnings)[j]
        invariant forall j :: 0 <= j < |candidates| ==> candidates[j] < i
        invariant forall j, k :: 0 <= j < k < |candidates| ==> candidates[j] < candidates[k]
        invariant forall j: nat :: j in candidates <==> j < i && InPlay(old(learnings)[j]) && j in eligible
      {
        if InPlay(learnings[i]) {
          if learnings[i].eligible != (i in eligible) {
            learnings := learnings[i := learnings[i].(eligible := i in eligible)];
          }
          if i in eligible {
            candidates := candidates + [i];
          }
        }
      }
    }

    /** Clears the flag of every learning at global scope, whatever its status. */
    method ClearGlobals()
      modifies this`learnings
      ensures |learnings| == |old(learnings)|
      ensures forall i :: 0 <= i < |learnings| ==>
                learnings[i] == old(learnings)[i].(eligible := old(learnings)[i].eligible
                  && old(learnings)[i].scope != GlobalScope)
    {
      for i := 0 to |learnings|
        invariant |learnings| == |old(learnings)|
        invariant forall j :: i <= j < |learnings| ==> learnings[j] == old(learnings)[j]
        invariant forall j :: 0 <= j < i ==>
          learnings[j] == old(learnings)[j].(eligible := old(learnings)[j].eligible
            && old(learnings)[j].scope != GlobalScope)
      {
        if learnings[i].scope == GlobalScope && learnings[i].eligible {
          learnings := learnings[i := learnings[i].(eligible := false)];
        }
      }
    }

    /** Moves one active learning one scope up and sweeps the flags again. */
    method Promote(id: nat, target: Scope) returns (error: Option<Refusal>)
      modifies this`learnings
      ensures error == PromoteError(old(learnings), id, target)
      ensures if error.Some? then learnings == old(learnings)
              else Swept(old(learnings)[id := old(learnings)[id].(scope := target, eligible := false)], confirmed,
                         learnings)
    {
      error := PromoteError(learnings, id, target);
      if error.None? {
        learnings := learnings[id := learnings[id].(scope := target, eligible := false)];
        var _ := AutoPromoteCandidates();
      }
    }
  }

  /** The learning heads its group list and the group meets its threshold. */
  ghost predicate Chosen(os: seq<Occurrence>, key: GroupKey, i: nat) {
    var group := InGroup(os, key);
    group != [] && group[0].learning == i && MeetsThreshold(key, SumTotals(group), |AllProjects(group)|)
  }

  /** Grouping in lists and counting directly choose the same learnings. */
  lemma EligibleIsShouldFlag(cs: seq<Entry>, confirmed: seq<Confirmation>, i: nat)
    requires i < |cs|
    ensures (exists key :: Chosen(Occurrences(cs, confirmed, |cs|), key, i)) <==> ShouldFlag(cs, confirmed, i)
  {
    var os := Occurrences(cs, confirmed, |cs|);
    if exists key :: Chosen(os, key, i) {
      var key :| Chosen(os, key, i);
      GroupListIsGroup(cs, confirmed, key, |cs|);
      GroupCounts(cs, confirmed, key, |cs|);
      GroupHead(cs, confirmed, key, |cs|);
    }
    if ShouldFlag(cs, confirmed, i) {
      var key := KeyOf(cs[i]).value;
      GroupListIsGroup(cs, confirmed, key, |cs|);
      GroupCounts(cs, confirmed, key, |cs|);
      GroupHead(cs, confirmed, key, |cs|);
      assert Chosen(os, key, i);
    }
  }

  lemma {:induction false} FlagsDoNotCount(a: seq<Entry>, b: seq<Entry>, confirmed: seq<Confirmation>, key: GroupKey,
                                           n: nat)
    requires n <= |a| == |b| && forall i :: 0 <= i < |a| ==> a[i] == b[i].(eligible := a[i].eligible)
    ensures GroupTotal(a, confirmed, key, n) == GroupTotal(b, confirmed, key, n)
    ensures GroupProjects(a, confirmed, key, n) == GroupProjects(b, confirmed, key, n)
  {
    if n == 0 {
    } else {
      FlagsDoNotCount(a, b, confirmed, key, n - 1);
    }
  }

  /** Sweeping twice is sweeping once. */
  lemma SweepIsIdempotent(a: seq<Entry>, confirmed: seq<Confirmation>, b: seq<Entry>, c: seq<Entry>)
    requires Swept(a, confirmed, b) && Swept(b, confirmed, c)
    ensures b == c
  {
    forall i | 0 <= i < |a| ensures b[i] == c[i] {
      assert KeyOf(b[i]) == KeyOf(a[i]) && forall j :: 0 <= j < i ==> KeyOf(b[j]) == KeyOf(a[j]);
      if InPlay(a[i]) && KeyOf(a[i]).Some? { FlagsDoNotCount(b, a, confirmed, KeyOf(a[i]).value, |a|); }
    }
  }

  /** After a sweep no global learning is flagged, and a learning in play is flagged exactly when it is the
      oldest of a group over its threshold, as counted in the swept table itself. */
  lemma FlagsAreExact(a: seq<Entry>, confirmed: seq<Confirmation>, b: seq<Entry>, i: nat)
    requires Swept(a, confirmed, b) && i < |b|
    ensures b[i].scope == GlobalScope ==> !b[i].eligible
    ensures InPlay(b[i]) ==> (b[i].eligible <==> ShouldFlag(b, confirmed, i))
  {
    assert KeyOf(b[i]) == KeyOf(a[i]) && forall j :: 0 <= j < i ==> KeyOf(b[j]) == KeyOf(a[j]);
    if InPlay(a[i]) && KeyOf(a[i]).Some? { FlagsDoNotCount(b, a, confirmed, KeyOf(a[i]).value, |a|); }
  }

  // ----- flags in plain counts

  /** Both learnings are in play and count together: at task scope within one project, at project scope anywhere. */
  ghost predicate Together(a: Entry, b: Entry) {
    && a.status == Active && b.status == Active && a.scope == b.scope != GlobalScope
    && a.title == b.title && a.rule == b.rule
    && (a.scope == TaskScope ==> a.project.Some? && a.project == b.project)
  }

  lemma TogetherIff(a: Entry, b: Entry)
    ensures KeyOf(a).Some? && KeyOf(b) == KeyOf(a) <==> Together(a, b)
  {
  }

  /** The learnings among the first `n` that count with `c` and have a project of their own. */
  ghost function OwnOccurrences(cs: seq<Entry>, c: Entry, n: nat): set<nat>
    requires n <= |cs|
  {
    set j: nat | j < n && Together(c, cs[j]) && cs[j].project.Some?
  }

  /** The confirmed drafts that were merged into one of the first `n` learnings that count with `c`. */
  ghost function DraftOccurrences(cs: seq<Entry>, confirmed: seq<Confirmation>, c: Entry, n: nat): set<nat>
    requires n <= |cs|
  {
    set k: nat | k < |confirmed| && confirmed[k].learning < n && Together(c, cs[confirmed[k].learning])
  }

  ghost function DraftsOf(confirmed: seq<Confirmation>, i: nat): set<nat> {
    set k: nat | k < |confirmed| && confirmed[k].learning == i
  }

  lemma {:induction false} DraftProjectsCount(confirmed: seq<Confirmation>, i: nat)
    ensures |DraftProjects(confirmed, i)| == |DraftsOf(confirmed, i)|
    decreases |confirmed|
  {
    if confirmed == [] {
    } else {
      var n := |confirmed| - 1;
      DraftProjectsCount(confirmed[..n], i);
      assert DraftsOf(confirmed, i) == DraftsOf(confirmed[..n], i) + if confirmed[n].learning == i then {n} else {};
      assert n !in DraftsOf(confirmed[..n], i);
    }
  }

  lemma {:induction false} DraftProjectFrom(confirmed: seq<Confirmation>, i: nat, p: int)
    ensures p in DraftProjects(confirmed, i) <==> exists k :: k in DraftsOf(confirmed, i) && confirmed[k].project == p
    decreases |confirmed|
  {
    if confirmed == [] {
    } else {
      var n := |confirmed| - 1;
      var init := confirmed[..n];
      DraftProjectFrom(init, i, p);
      if p in DraftProjects(init, i) {
        var k :| k in DraftsOf(init, i) && init[k].project == p;
        assert k in DraftsOf(confirmed, i) && confirmed[k].project == p;
      }
      if confirmed[n].learning == i { assert n in DraftsOf(confirmed, i); }
      if k :| k in DraftsOf(confirmed, i) && confirmed[k].project == p && k < n {
        assert k in DraftsOf(init, i) && init[k].project == p;
      }
    }
  }

  /** Counting over a group is counting its learnings with a project and the drafts merged into its learnings. */
  lemma {:induction false} GroupTotalIs(cs: seq<Entry>, confirmed: seq<Confirmation>, c: Entry, n: nat)
    requires n <= |cs| && KeyOf(c).Some?
    ensures GroupTotal(cs, confirmed, KeyOf(c).value, n)
         == |OwnOccurrences(cs, c, n)| + |DraftOccurrences(cs, confirmed, c, n)|
  {
    if n == 0 {
    } else {
      GroupTotalIs(cs, confirmed, c, n - 1);
      TogetherIff(c, cs[n - 1]);
      OwnNext(cs, c, n);
      DraftsNext(cs, confirmed, c, n);
    }
  }

  lemma OwnNext(cs: seq<Entry>, c: Entry, n: nat)
    requires 1 <= n <= |cs|
    ensures |OwnOccurrences(cs, c, n)|
         == |OwnOccurrences(cs, c, n - 1)| + if Together(c, cs[n - 1]) then |ProjectList(cs[n - 1])| else 0
  {
    var own := OwnOccurrences(cs, c, n - 1);
    assert OwnOccurrences(cs, c, n) == own + if Together(c, cs[n - 1]) && cs[n - 1].project.Some? then {n - 1} else {};
    assert n - 1 !in own;
  }

  lemma DraftsNext(cs: seq<Entry>, confirmed: seq<Confirmation>, c: Entry, n: nat)
    requires 1 <= n <= |cs|
    ensures |DraftOccurrences(cs, confirmed, c, n)|
         == |DraftOccurrences(cs, confirmed, c, n - 1)|
            + if Together(c, cs[n - 1]) then |DraftProjects(confirmed, n - 1)| else 0
  {
    var drafts, mine := DraftOccurrences(cs, confirmed, c, n - 1), DraftsOf(confirmed, n - 1);
    DraftProjectsCount(confirmed, n - 1);
    DraftsSplit(cs, confirmed, c, n);
    assert drafts !! mine;
  }

  lemma DraftsSplit(cs: seq<Entry>, confirmed: seq<Confirmation>, c: Entry, n: nat)
    requires 1 <= n <= |cs|
    ensures DraftOccurrences(cs, confirmed, c, n)
         == DraftOccurrences(cs, confirmed, c, n - 1)
            + if Together(c, cs[n - 1]) then DraftsOf(confirmed, n - 1) else {}
  {
  }

  /** Project `p` is where a learning that counts with `c`, or a draft merged into one, comes from. */
  ghost predicate OccursIn(cs: seq<Entry>, confirmed: seq<Confirmation>, c: Entry, n: nat, p: int)
    requires n <= |cs|
  {
    || (exists j :: j in OwnOccurrences(cs, c, n) && cs[j].project == Some(p))
    || (exists k :: k in DraftOccurrences(cs, confirmed, c, n) && confirmed[k].project == p)
  }

  lemma {:induction false} GroupProjectsAre(cs: seq<Entry>, confirmed: seq<Confirmation>, c: Entry, n: nat, p: int)
    requires n <= |cs| && KeyOf(c).Some?
    ensures p in GroupProjects(cs, confirmed, KeyOf(c).value, n) <==> OccursIn(cs, confirmed, c, n, p)
  {
    if n == 0 {
    } else {
      GroupProjectsAre(cs, confirmed, c, n - 1, p);
      TogetherIff(c, cs[n - 1]);
      OccursInNext(cs, confirmed, c, n, p);
    }
  }

  lemma OccursInNext(cs: seq<Entry>, confirmed: seq<Confirmation>, c: Entry, n: nat, p: int)
    requires 1 <= n <= |cs|
    ensures OccursIn(cs, confirmed, c, n, p)
       <==> || OccursIn(cs, confirmed, c, n - 1, p)
            || (Together(c, cs[n - 1]) && p in ProjectsOf(cs[n - 1], DraftProjects(confirmed, n - 1)))
  {
    DraftProjectFrom(confirmed, n - 1, p);
    if Together(c, cs[n - 1]) {
      if cs[n - 1].project == Some(p) { assert n - 1 in OwnOccurrences(cs, c, n); }
      if k :| k in DraftsOf(confirmed, n - 1) && confirmed[k].project == p {
        assert k in DraftOccurrences(cs, confirmed, c, n);
      }
    }
    forall j ensures j in OwnOccurrences(cs, c, n)
        <==> j in OwnOccurrences(cs, c, n - 1) || (j == n - 1 && Together(c, cs[j]) && cs[j].project.Some?) {
    }
    forall k ensures k in DraftOccurrences(cs, confirmed, c, n)
        <==> || k in DraftOccurrences(cs, confirmed, c, n - 1)
             || (k in DraftsOf(confirmed, n - 1) && Together(c, cs[n - 1])) {
    }
  }

  ghost predicate InTwoProjects(cs: seq<Entry>, confirmed: seq<Confirmation>, c: Entry, n: nat)
    requires n <= |cs|
  {
    exists p, q :: p != q && OccursIn(cs, confirmed, c, n, p) && OccursIn(cs, confirmed, c, n, q)
  }

  /** The oldest of its group, which occurred twice in its project or, at project scope, three times and in two. */
  ghost predicate Qualifies(cs: seq<Entry>, confirmed: seq<Confirmation>, i: nat)
    requires i < |cs|
  {
    var c, n := cs[i], |cs|;
    var times := |OwnOccurrences(cs, c, n)| + |DraftOccurrences(cs, confirmed, c, n)|;
    && (c.scope == TaskScope ==> c.project.Some?)
    && (forall j :: 0 <= j < i ==> !Together(c, cs[j]))
    && if c.scope == TaskScope then times >= 2
       else times >= 3 && InTwoProjects(cs, confirmed, c, n)
  }

  /** A sweep changes flags alone. In play it flags exactly the learnings that qualify, elsewhere it keeps the flag
      except at global scope. */
  lemma FlaggedIff(before: seq<Entry>, confirmed: seq<Confirmation>, after: seq<Entry>, i: nat)
    requires Swept(before, confirmed, after) && i < |before|
    ensures |after| == |before| && after[i] == before[i].(eligible := after[i].eligible)
    ensures after[i].eligible
       <==> if before[i].status == Active && before[i].scope != GlobalScope then Qualifies(before, confirmed, i)
            else before[i].eligible && before[i].scope != GlobalScope
  {
    if InPlay(before[i]) { QualifiesIff(before, confirmed, i); }
  }

  lemma QualifiesIff(cs: seq<Entry>, confirmed: seq<Confirmation>, i: nat)
    requires i < |cs| && InPlay(cs[i])
    ensures ShouldFlag(cs, confirmed, i) <==> Qualifies(cs, confirmed, i)
  {
    var c, n := cs[i], |cs|;
    forall j | 0 <= j < i ensures KeyOf(c).Some? ==> (KeyOf(cs[j]) != KeyOf(c) <==> !Together(c, cs[j])) {
      TogetherIff(c, cs[j]);
    }
    if KeyOf(c).Some? {
      GroupTotalIs(cs, confirmed, c, n);
      TwoProjectsIff(cs, confirmed, c, n);
    }
  }

  lemma TwoProjectsIff(cs: seq<Entry>, confirmed: seq<Confirmation>, c: Entry, n: nat)
    requires n <= |cs| && KeyOf(c).Some?
    ensures |GroupProjects(cs, confirmed, KeyOf(c).value, n)| >= 2 <==> InTwoProjects(cs, confirmed, c, n)
  {
    var projects := GroupProjects(cs, confirmed, KeyOf(c).value, n);
    if |projects| >= 2 {
      var p, q := TwoMembers(projects);
      GroupProjectsAre(cs, confirmed, c, n, p);
      GroupProjectsAre(cs, confirmed, c, n, q);
    }
    if p, q :| p != q && OccursIn(cs, confirmed, c, n, p) && OccursIn(cs, confirmed, c, n, q) {
      GroupProjectsAre(cs, confirmed, c, n, p);
      GroupProjectsAre(cs, confirmed, c, n, q);
      assert projects == {p, q} + (projects - {p, q});
    }
  }

  lemma TwoMembers<T>(s: set<T>) returns (p: T, q: T)
    requires |s| >= 2
    ensures p != q && p in s && q in s
  {
    assert s != {};
    p :| p in s;
    var rest := s - {p};
    assert |rest| == |s| - 1;
    assert rest != {};
    q :| q in rest;
  }

  // ----- climbing

  function Height(scope: Scope): nat {
    match scope case TaskScope => 0 case ProjectScope => 1 case GlobalScope => 2
  }

  /** Promotion of `id` to `target` is refused for an unknown or inactive learning and for any scope but the next. */
  function PromoteError(cs: seq<Entry>, id: nat, target: Scope): Option<Refusal> {
    if id >= |cs| then Some(UnknownLearning)
    else if cs[id].status != Active then Some(InactiveLearning)
    else if NextScope(cs[id].scope) != Some(target) then Some(WrongScope)
    else None
  }

  lemma PromoteAcceptedIff(cs: seq<Entry>, id: nat, target: Scope)
    ensures PromoteError(cs, id, target).None?
       <==> id < |cs| && cs[id].status == Active && Height(target) == Height(cs[id].scope) + 1
  {
  }

  /** One promotion request, as `Promote` carries it out. */
  ghost predicate PromoteStep(before: seq<Entry>, confirmed: seq<Confirmation>, id: nat, target: Scope,
                              after: seq<Entry>) {
    if PromoteError(before, id, target).Some? then after == before
    else Swept(before[id := before[id].(scope := target, eligible := false)], confirmed, after)
  }

  /** The table and the ledger hold the same learnings, as far as scope and status go. */
  ghost predicate Describes(cs: seq<Entry>, l: Ledger) {
    && |cs| == |l.learnings|
    && forall i :: 0 <= i < |cs| ==> cs[i].scope == l.learnings[i].scope && cs[i].status == l.learnings[i].status
  }

  /** A request does to the ledger what `Promoted` says, or nothing where it is refused. */
  lemma PromoteStepIsPromoted(cs: seq<Entry>, confirmed: seq<Confirmation>, l: Ledger, id: nat, target: Scope,
                              after: seq<Entry>)
    requires Describes(cs, l) && PromoteStep(cs, confirmed, id, target, after)
    ensures if PromoteError(cs, id, target).Some? then Describes(after, l)
            else l.learnings[id].scope != GlobalScope && Describes(after, Promoted(l, id))
  {
  }

  datatype Request = Request(id: nat, target: Scope)

  /** A run of promotion requests with all the tables in between. */
  ghost predicate PromoteRun(tables: seq<seq<Entry>>, confirmed: seq<Confirmation>, requests: seq<Request>) {
    && |tables| == |requests| + 1
    && forall k :: 0 <= k < |requests| ==>
      PromoteStep(tables[k], confirmed, requests[k].id, requests[k].target, tables[k + 1])
  }

  function Accepted(requests: seq<Request>, tables: seq<seq<Entry>>, i: nat): nat
    requires |tables| == |requests| + 1
    decreases requests
  {
    if requests == [] then 0
    else
      (if requests[0].id == i && PromoteError(tables[0], i, requests[0].target).None? then 1 else 0)
        + Accepted(requests[1..], tables[1..], i)
  }

  /** Over any run a scope only climbs, by exactly one step for each accepted promotion of that learning. */
  lemma {:induction false} ScopesOnlyClimb(tables: seq<seq<Entry>>, confirmed: seq<Confirmation>,
                                           requests: seq<Request>, i: nat)
    requires PromoteRun(tables, confirmed, requests) && i < |tables[0]|
    ensures var last := tables[|requests|];
            && i < |last|
            && Height(last[i].scope) == Height(tables[0][i].scope) + Accepted(requests, tables, i)
            && last[i].status == tables[0][i].status
    decreases requests
  {
    if requests == [] {
    } else {
      assert PromoteStep(tables[0], confirmed, requests[0].id, requests[0].target, tables[1]);
      assert forall k :: 0 <= k < |requests[1..]| ==>
          requests[1..][k] == requests[k + 1] && tables[1..][k + 1] == tables[k + 2];
      ScopesOnlyClimb(tables[1..], confirmed, requests[1..], i);
    }
  }
}
