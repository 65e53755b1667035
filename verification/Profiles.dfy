/** Profiles: names that stay unique, the repair of names after loading, and the engine configuration of a profile. */
module Profiles {
  import opened Decimal
  import Actions
  import EngineProgram
  import Modes
  import PreciseWaiter

  datatype Profile = Profile(
    name: string, action: Actions.InputAction, mode: Modes.ModeParams, maxMode: bool, cps: real,
    precision: PreciseWaiter.Precision, latePolicy: EngineProgram.LatePolicy, maxBatch: nat, maxBackpressure: bool,
    maxInflight: nat)

  // ---------------------------------------------------------------- the engine's configuration

  /** Whatever rate a profile asks for, the engine gets the nearest that it can run. The rest is the profile's, and
      there is no limit on events under way exactly when backpressure is off or its limit is 0. */
  function MakeEngineConfig(p: Profile): (c: EngineProgram.EngineConfig)
    ensures EngineProgram.InRange(c)
    ensures EngineProgram.MIN_CPS <= p.cps <= EngineProgram.MAX_CPS ==> c.cps == p.cps
    ensures c.cps < p.cps ==> c.cps == EngineProgram.MAX_CPS
    ensures c.cps > p.cps ==> c.cps == EngineProgram.MIN_CPS
    ensures c.action == p.action && c.mode == p.mode && c.maxMode == p.maxMode && c.precision == p.precision
    ensures c.latePolicy == p.latePolicy && c.maxBatchActions == p.maxBatch
    ensures c.maxInflight == 0 <==> !p.maxBackpressure || p.maxInflight == 0
    ensures c.maxInflight != 0 ==> c.maxInflight == p.maxInflight
  {
    var cps := if p.cps < EngineProgram.MIN_CPS then EngineProgram.MIN_CPS
               else if p.cps > EngineProgram.MAX_CPS then EngineProgram.MAX_CPS else p.cps;
    EngineProgram.EngineConfig(p.action, p.mode, p.maxMode, cps, p.precision, p.latePolicy, p.maxBatch,
                               if p.maxBackpressure then p.maxInflight else 0)
  }

  // ---------------------------------------------------------------- names

  const LAST_SUFFIX: nat := 10000

  function Names(ps: seq<Profile>): (r: seq<string>)
    ensures |r| == |ps|
    ensures forall i :: 0 <= i < |ps| ==> r[i] == ps[i].name
  {
    seq(|ps|, i requires 0 <= i < |ps| => ps[i].name)
  }

  /** What C formatting sees of a string: it ends at the first NUL. */
  function CString(s: string): string {
    if s == "" || s[0] == '\0' then "" else [s[0]] + CString(s[1..])
  }

  function Candidate(base: string, i: nat): string { CString(base) + " (" + NatToString(i) + ")" }

  /** For instance. */
  lemma SecondClicker()
    ensures Candidate("Clicker", 2) == "Clicker (2)" && Unique(["Clicker"], "Clicker") == "Clicker (2)"
    ensures Unique(["Clicker"], "Other") == "Other"
  {
    assert NatToString(2) == "2";
    PlainCString("Clicker");
  }

  lemma {:induction false} PlainCString(s: string)
    requires forall i :: 0 <= i < |s| ==> s[i] != '\0'
    ensures CString(s) == s
  {
    if s != "" { PlainCString(s[1..]); }
  }

  /** The first name in the order of trial that is not taken. */
  function FirstFree(names: seq<string>, base: string, i: nat): string
    decreases LAST_SUFFIX - i
  {
    if i >= LAST_SUFFIX then base + " *"
    else if Candidate(base, i) !in names then Candidate(base, i)
    else FirstFree(names, base, i + 1)
  }

  function Unique(names: seq<string>, base: string): string {
    if base !in names then base else FirstFree(names, base, 2)
  }

  predicate AllTaken(names: seq<string>, base: string) {
    && base in names && (base + " *") in names
    && forall i: nat {:trigger Candidate(base, i)} :: 2 <= i < LAST_SUFFIX ==> Candidate(base, i) in names
  }

  lemma {:induction false} FirstFreeIsTakenIff(names: seq<string>, base: string, i: nat)
    requires i <= LAST_SUFFIX
    ensures FirstFree(names, base, i) in names <==>
              (base + " *") in names
              && forall k: nat {:trigger Candidate(base, k)} :: i <= k < LAST_SUFFIX ==> Candidate(base, k) in names
    decreases LAST_SUFFIX - i
  {
    hide Candidate;
    if i < LAST_SUFFIX && Candidate(base, i) in names { FirstFreeIsTakenIff(names, base, i + 1); }
  }

  /** uniqueName returns a name that is already taken exactly when everything it can try is taken. */
  lemma UniqueIsTakenIff(names: seq<string>, base: string)
    ensures Unique(names, base) in names <==> AllTaken(names, base)
  {
    hide Candidate, FirstFree;
    FirstFreeIsTakenIff(names, base, 2);
  }

  // ---------------------------------------------------------------- pigeonhole

  function CandidatesBelow(base: string, n: nat): set<string> {
    if n <= 2 then {} else CandidatesBelow(base, n - 1) + {Candidate(base, n - 1)}
  }

  lemma {:induction false} WhichCandidates(base: string, n: nat)
    ensures forall c :: c in CandidatesBelow(base, n) ==> exists i: nat {:trigger Candidate(base, i)} ::
                          2 <= i < n && c == Candidate(base, i)
  {
    hide Candidate;
    if n > 2 {
      WhichCandidates(base, n - 1);
      forall c | c in CandidatesBelow(base, n)
        ensures exists i: nat {:trigger Candidate(base, i)} :: 2 <= i < n && c == Candidate(base, i)
      {
        if c == Candidate(base, n - 1) {
        } else {
          assert c in CandidatesBelow(base, n - 1);
        }
      }
    }
  }

  lemma CandidateInjective(base: string, i: nat, j: nat)
    requires i != j
    ensures Candidate(base, i) != Candidate(base, j)
  {
    hide NatToString, CString;
    if Candidate(base, i) == Candidate(base, j) {
      var n := |CString(base)| + 2;
      assert Candidate(base, i)[n..|Candidate(base, i)| - 1] == NatToString(i);
      assert Candidate(base, j)[n..|Candidate(base, j)| - 1] == NatToString(j);
      NatToStringInjective(i, j);
    }
  }

  /** No two of the names that are tried are equal: 9998 candidates, the name itself, and the last resort. */
  lemma {:induction false} CandidatesCount(base: string, n: nat)
    ensures |CandidatesBelow(base, n)| == if n <= 2 then 0 else n - 2
  {
    hide Candidate;
    if n > 2 {
      CandidatesCount(base, n - 1);
      WhichCandidates(base, n - 1);
      forall i: nat {:trigger Candidate(base, i)} | i < n - 1 ensures Candidate(base, i) != Candidate(base, n - 1) {
        CandidateInjective(base, i, n - 1);
      }
    }
  }

  lemma {:induction false} CStringHasNoNul(s: string)
    ensures '\0' !in CString(s) && |CString(s)| <= |s| && ('\0' !in s ==> CString(s) == s)
  {
    if s != "" && s[0] != '\0' { CStringHasNoNul(s[1..]); }
  }

  lemma {:induction false} NatHasNoNul(n: nat)
    ensures '\0' !in NatToString(n)
  {
    if n >= 10 { NatHasNoNul(n / 10); }
  }

  lemma CandidateIsNeither(base: string, i: nat)
    ensures Candidate(base, i) != base && Candidate(base, i) != base + " *"
  {
    hide NatToString, CString;
    CStringHasNoNul(base);
    NatHasNoNul(i);
    var c := Candidate(base, i);
    assert c[|c| - 1] == ')' && (base + " *")[|base| + 1] == '*';
    if '\0' !in base {
      assert |c| > |base|;
    } else {
      assert '\0' !in c;
    }
  }

  /** Everything that uniqueName can try. */
  function Tried(base: string): set<string> { CandidatesBelow(base, LAST_SUFFIX) + {base} + {base + " *"} }

  lemma TriedCount(base: string)
    ensures |Tried(base)| == LAST_SUFFIX
  {
    hide Candidate, CandidatesBelow;
    var n := LAST_SUFFIX;
    CandidatesCount(base, n);
    WhichCandidates(base, n);
    forall i: nat {:trigger Candidate(base, i)}
      ensures Candidate(base, i) != base && Candidate(base, i) != base + " *"
    {
      CandidateIsNeither(base, i);
    }
    assert base !in CandidatesBelow(base, n) && (base + " *") !in CandidatesBelow(base, n);
    assert |base + " *"| != |base|;
  }

  lemma {:induction false} SetOfSeq(names: seq<string>)
    ensures |(set n | n in names)| <= |names|
  {
    if names != [] {
      SetOfSeq(names[1..]);
      assert (set n | n in names) == {names[0]} + (set n | n in names[1..]);
    }
  }

  lemma {:induction false} CandidatesTaken(names: seq<string>, base: string, n: nat)
    requires n <= LAST_SUFFIX && AllTaken(names, base)
    ensures forall c :: c in CandidatesBelow(base, n) ==> c in names
  {
    hide Candidate;
    if n > 2 { CandidatesTaken(names, base, n - 1); }
  }

  /** With fewer than 10,000 profiles uniqueName always returns a name that no profile has. */
  lemma UniqueIsNew(names: seq<string>, base: string)
    requires |names| < LAST_SUFFIX
    ensures Unique(names, base) !in names
  {
    hide Candidate, FirstFree, CandidatesBelow, AllTaken;
    UniqueIsTakenIff(names, base);
    if AllTaken(names, base) { TakesTenThousand(names, base); }
  }

  lemma TakesTenThousand(names: seq<string>, base: string)
    requires AllTaken(names, base)
    ensures |names| >= LAST_SUFFIX
  {
    hide Candidate, CandidatesBelow;
    TriedCount(base);
    CandidatesTaken(names, base, LAST_SUFFIX);
    SetOfSeq(names);
    var all := set n | n in names;
    assert Tried(base) <= all;
    SubsetSize(Tried(base), all);
  }

  lemma SubsetSize(a: set<string>, b: set<string>)
    requires a <= b
    ensures |a| <= |b|
  {
    assert b == a + (b - a);
  }

  /** With 10,000 it may not: the bound is sharp for every name. */
  lemma TenThousandSuffice(base: string) returns (names: seq<string>)
    ensures |names| == LAST_SUFFIX && Unique(names, base) in names
  {
    hide Candidate, FirstFree;
    var n := LAST_SUFFIX;
    names := seq(n, i requires 0 <= i < n =>
      if i == 0 then base else if i == 1 then base + " *" else Candidate(base, i));
    assert names[0] == base && names[1] == base + " *";
    forall i: nat {:trigger Candidate(base, i)} | 2 <= i < n ensures Candidate(base, i) in names {
      assert names[i] == Candidate(base, i);
    }
    UniqueIsTakenIff(names, base);
  }

  // ---------------------------------------------------------------- the store

  predicate IsSpace(c: char) { c == ' ' || c == '\t' || c == '\r' || c == '\n' }

  predicate Blank(s: string) { forall i :: 0 <= i < |s| ==> IsSpace(s[i]) }

  predicate Distinct(names: seq<string>) { forall i, j :: 0 <= i < j < |names| ==> names[i] != names[j] }

  method Trim(s: string) returns (r: string)
    ensures r == "" <==> Blank(s)
    ensures exists b, e :: 0 <= b <= e <= |s| && r == s[b..e] && Blank(s[..b]) && Blank(s[e..])
    ensures r != "" ==> !IsSpace(r[0]) && !IsSpace(r[|r| - 1])
  {
    var b, e := 0, |s|;
    while b < e && IsSpace(s[b])
      invariant 0 <= b <= e && Blank(s[..b])
    {
      b := b + 1;
    }
    while e > b && IsSpace(s[e - 1])
      invariant b <= e <= |s| && Blank(s[e..])
      invariant b < |s| ==> b < e && !IsSpace(s[b])
    {
      e := e - 1;
    }
    r := s[b..e];
    if b == |s| { assert s[..b] == s; } else { assert r[0] == s[b] && r[|r| - 1] == s[e - 1]; }
  }

  lemma CandidateNotBlank(base: string, i: nat)
    ensures !Blank(Candidate(base, i)) && !Blank(base + " *")
  {
    hide NatToString, CString;
    var c, d := Candidate(base, i), base + " *";
    assert c[|c| - 1] == ')' && d[|d| - 1] == '*';
  }

  lemma {:induction false} FirstFreeNotBlank(names: seq<string>, base: string, i: nat)
    ensures !Blank(FirstFree(names, base, i))
    decreases LAST_SUFFIX - i
  {
    hide Candidate, Blank;
    CandidateNotBlank(base, i);
    if i < LAST_SUFFIX && Candidate(base, i) in names { FirstFreeNotBlank(names, base, i + 1); }
  }

  class ProfileStore {
    var profiles: seq<Profile>
    var activeProfile: string

    constructor (ps: seq<Profile>, active: string)
      ensures profiles == ps && activeProfile == active
    {
      profiles, activeProfile := ps, active;
    }

    method Exists(n: string) returns (b: bool)
      ensures b == (n in Names(profiles))
    {
      hide Names;
      ghost var names := Names(profiles);
      b := false;
      for i := 0 to |profiles|
        invariant b ==> n in names
        invariant !b ==> forall k :: 0 <= k < i ==> names[k] != n
      {
        if profiles[i].name == n {
          assert names[i] == n;
          b := true;
        }
      }
    }

    method UniqueName(base: string) returns (r: string)
      ensures r == Unique(Names(profiles), base)
    {
      hide Candidate;
      var taken := Exists(base);
      if !taken { return base; }
      var i := 2;
      while i < LAST_SUFFIX
        invariant 2 <= i <= LAST_SUFFIX
        invariant FirstFree(Names(profiles), base, i) == Unique(Names(profiles), base)
      {
        var n := Candidate(base, i);
        taken := Exists(n);
        if !taken { return n; }
        i := i + 1;
      }
      r := base + " *";
    }

    method Rename(i: nat, name: string)
      requires i < |profiles|
      modifies this`profiles
      ensures profiles == old(profiles)[i := old(profiles)[i].(name := name)]
      ensures Names(profiles) == Names(old(profiles))[i := name]
    {
      profiles := profiles[i := profiles[i].(name := name)];
    }

    /** A name that an earlier profile has is made unique among all. */
    method MakeUnique(i: nat)
      requires i < |profiles| && !Blank(profiles[i].name)
      modifies this`profiles
      ensures |profiles| == |old(profiles)|
      ensures profiles == old(profiles)[i := old(profiles)[i].(name := profiles[i].name)]
      ensures !Blank(profiles[i].name)
      ensures var names := Names(old(profiles));
              if names[i] !in names[..i] then profiles[i].name == names[i]
              else |profiles| < LAST_SUFFIX ==>
                     profiles[i].name == Unique(names, names[i]) && profiles[i].name !in names
    {
      hide Candidate, FirstFree, Unique, Blank, Names;
      ghost var names := Names(profiles);
      var j := 0;
      while j < i
        invariant j <= i && |profiles| == |names|
        invariant profiles == old(profiles)[i := old(profiles)[i].(name := profiles[i].name)]
        invariant !Blank(profiles[i].name)
        invariant if names[i] !in names[..j] then profiles[i].name == names[i]
                  else |names| < LAST_SUFFIX ==>
                         profiles[i].name == Unique(names, names[i]) && profiles[i].name !in names
      {
        assert names[..j + 1] == names[..j] + [names[j]];
        if profiles[j].name == profiles[i].name {
          UniqueFacts(Names(profiles), i);
          var new_ := UniqueName(profiles[i].name);
          if |names| < LAST_SUFFIX {
            assert names[i] !in names[..j] && Names(profiles) == names;
          }
          Rename(i, new_);
        }
        j := j + 1;
      }
    }

    /** Profile i, given that the ones before it are in order: a blank name becomes "Profile" first. */
    method RepairOne(i: nat)
      requires i < |profiles|
      requires |profiles| < LAST_SUFFIX ==> Distinct(Names(profiles)[..i])
      modifies this`profiles
      ensures |profiles| == |old(profiles)|
      ensures profiles == old(profiles)[i := old(profiles)[i].(name := profiles[i].name)]
      ensures !Blank(profiles[i].name)
      ensures |profiles| < LAST_SUFFIX ==> Distinct(Names(profiles)[..i + 1])
      ensures var was, others := old(profiles)[i].name, Names(old(profiles))[..i];
              var base := if Blank(was) then "Profile" else was;
              && (base !in others ==> profiles[i].name == base)
              && (base in others && |profiles| < LAST_SUFFIX ==>
                    profiles[i].name == Unique(Names(old(profiles))[i := base], base))
      ensures |profiles| < LAST_SUFFIX && profiles[i].name != "Profile" ==>
                profiles[i].name == old(profiles)[i].name || profiles[i].name !in Names(old(profiles))[i + 1..]
    {
      hide Blank, Distinct, Names, Unique;
      ghost var names := Names(profiles);
      var trimmed := Trim(profiles[i].name);
      if trimmed == "" { Rename(i, "Profile"); }
      NotBlankProfile();
      ghost var base := Names(profiles);
      assert base[..i] == names[..i] && base[i + 1..] == names[i + 1..] && base == names[i := base[i]];
      MakeUnique(i);
      assert Names(profiles)[..i] == names[..i];
      if |profiles| < LAST_SUFFIX { DistinctNext(Names(profiles), i); }
    }

    /** The repair of names that ends load. A name that was not blank, not "Profile" and not used by an earlier
        profile is kept. */
    method Repair(defaults: seq<Profile>)
      requires defaults != []
      modifies this
      ensures var ps := if old(profiles) == [] then defaults else old(profiles);
              && |profiles| == |ps|
              && (forall i :: 0 <= i < |ps| ==> profiles[i] == ps[i].(name := profiles[i].name))
              && (forall i :: 0 <= i < |ps| ==> !Blank(profiles[i].name))
              && (|ps| < LAST_SUFFIX ==> Distinct(Names(profiles)) && Kept(Names(ps), Names(profiles), |ps|))
              && activeProfile in Names(profiles)
              && (old(activeProfile) in Names(profiles) ==> activeProfile == old(activeProfile))
    {
      hide Blank, Distinct, Names, Kept, Earlier;
      if profiles == [] { profiles := defaults; }
      ghost var ps := profiles;
      NoneDistinct(Names(profiles)[..0]);
      NoneKept(Names(ps), Names(profiles));
      for i := 0 to |profiles|
        invariant |profiles| == |ps| && activeProfile == old(activeProfile)
        invariant forall k :: 0 <= k < |ps| ==> profiles[k] == ps[k].(name := profiles[k].name)
        invariant forall k :: i <= k < |ps| ==> profiles[k] == ps[k]
        invariant forall k :: 0 <= k < i ==> !Blank(profiles[k].name)
        invariant |ps| < LAST_SUFFIX ==>
                    Distinct(Names(profiles)[..i]) && Kept(Names(ps), Names(profiles), i)
                    && Earlier(Names(ps), Names(profiles), i)
      {
        ghost var before := Names(profiles);
        RepairOne(i);
        if |ps| < LAST_SUFFIX { KeptNext(Names(ps), before, Names(profiles), i); }
      }
      assert Names(profiles)[..|ps|] == Names(profiles);
      var found := Exists(activeProfile);
      if !found { activeProfile := profiles[0].name; }
      assert Names(profiles)[0] == profiles[0].name;
    }
  }

  predicate Fine(was: seq<string>, i: nat)
    requires i < |was|
  {
    !Blank(was[i]) && was[i] != "Profile" && was[i] !in was[..i]
  }

  /** Among the first n names those that needed no repair have been kept. */
  ghost predicate Kept(was: seq<string>, now: seq<string>, n: nat) {
    |was| == |now| && n <= |was| && forall i: nat {:trigger now[i]} :: i < n && Fine(was, i) ==> now[i] == was[i]
  }

  /** A repaired name does not take a name that is still to come. */
  ghost predicate Earlier(was: seq<string>, now: seq<string>, n: nat) {
    |was| == |now| && n <= |was|
    && forall i: nat {:trigger now[i]} :: i < n ==> now[i] == "Profile" || now[i] == was[i] || now[i] !in was[n..]
  }

  lemma NoneKept(was: seq<string>, now: seq<string>)
    requires |was| == |now|
    ensures Kept(was, now, 0) && Earlier(was, now, 0)
  {
  }

  lemma KeptNext(was: seq<string>, before: seq<string>, now: seq<string>, i: nat)
    requires i < |was| && |now| == |was| && Kept(was, before, i) && Earlier(was, before, i)
    requires forall k: nat :: i <= k < |was| ==> before[k] == was[k]
    requires now == before[i := now[i]]
    requires (if Blank(was[i]) then "Profile" else was[i]) !in before[..i] ==>
               now[i] == if Blank(was[i]) then "Profile" else was[i]
    requires now[i] == "Profile" || now[i] == was[i] || now[i] !in was[i + 1..]
    ensures Kept(was, now, i + 1) && Earlier(was, now, i + 1)
  {
    hide Blank;
    forall k: nat | k < i && Fine(was, i) ensures before[k] != was[i] {
      assert was[k] == was[..i][k];
      assert was[i] == was[i..][0];
    }
    forall k: nat | k < i ensures now[k] == "Profile" || now[k] == was[k] || now[k] !in was[i + 1..] {
      assert now[k] == before[k];
      assert was[i + 1..] == was[i..][1..];
    }
  }

  lemma DistinctNext(names: seq<string>, i: nat)
    requires i < |names| && Distinct(names[..i]) && names[i] !in names[..i]
    ensures Distinct(names[..i + 1])
  {
    var more := names[..i + 1];
    forall a, b | 0 <= a < b < |more| ensures more[a] != more[b] {
      assert more[a] == names[..i][a];
      if b < i { assert more[b] == names[..i][b]; }
    }
  }

  lemma NoneDistinct(names: seq<string>)
    requires names == []
    ensures Distinct(names)
  {
  }

  lemma NotBlankProfile()
    ensures !Blank("Profile")
  {
    assert "Profile"[0] == 'P';
  }

  /** What uniqueName gives for a name that is taken. */
  lemma UniqueFacts(names: seq<string>, i: nat)
    requires i < |names|
    ensures !Blank(Unique(names, names[i]))
    ensures |names| < LAST_SUFFIX ==> Unique(names, names[i]) !in names
  {
    hide FirstFree, Candidate, Blank;
    FirstFreeNotBlank(names, names[i], 2);
    if |names| < LAST_SUFFIX { UniqueIsNew(names, names[i]); }
  }
}
