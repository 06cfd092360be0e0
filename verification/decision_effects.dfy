// What publishing a decision asks for and what it adds
// (backend/apps/projects/decision_risk_services.py, lines 84-190).
module DecisionEffects {
  import opened Results
  import opened Decisions

  // The text has something in it beside white space.
  predicate Says(s: string) {
    exists i :: 0 <= i < |s| && !Blank(s[i])
  }

  lemma {:induction false} StripStartSays(s: string)
    ensures Says(StripStart(s)) <==> Says(s)
    ensures StripStart(s) != [] ==> !Blank(StripStart(s)[0])
  {
    if s != [] && Blank(s[0]) {
      StripStartSays(s[1..]);
      if i :| 0 <= i < |s| && !Blank(s[i]) {
        assert s[1..][i - 1] == s[i];
      }
      if i :| 0 <= i < |s[1..]| && !Blank(s[1..][i]) {
        assert s[i + 1] == s[1..][i];
      }
    }
  }

  lemma {:induction false} StripEndSays(s: string)
    ensures Says(StripEnd(s)) <==> Says(s)
    ensures StripEnd(s) != [] ==> !Blank(StripEnd(s)[|StripEnd(s)| - 1])
  {
    if s != [] && Blank(s[|s| - 1]) {
      var front := s[..|s| - 1];
      StripEndSays(front);
      if i :| 0 <= i < |s| && !Blank(s[i]) {
        assert front[i] == s[i];
      }
      if i :| 0 <= i < |front| && !Blank(front[i]) {
        assert s[i] == front[i];
      }
    }
  }

  lemma StripSays(s: string)
    ensures Strip(s) != "" <==> Says(s)
  {
    var rest := StripStart(s);
    StripStartSays(s);
    StripEndSays(rest);
    if StripEnd(rest) != [] {
      assert Says(StripEnd(rest));
    }
  }

  // One to twenty options, each of one to a thousand characters and not blank.
  lemma OptionsValidIff(options: seq<string>)
    ensures OptionsValid(options) <==>
      1 <= |options| <= 20 && forall i :: 0 <= i < |options| ==> Says(options[i]) && |options[i]| <= 1000
  {
    forall i | 0 <= i < |options| ensures Strip(options[i]) != "" <==> Says(options[i]) {
      StripSays(options[i]);
    }
  }

  // The decision to be superseded is a current one of the project.
  predicate MaySupersede(ds: seq<Decision>, r: Request) {
    r.supersedes.Some? ==>
      r.supersedes.value < |ds| && ds[r.supersedes.value].project == r.project && ds[r.supersedes.value].status == Current
  }

  predicate Retries(ds: seq<Decision>, r: Request) {
    r.key != "" && exists i :: 0 <= i < |ds| && ds[i].project == r.project && ds[i].key == r.key
  }

  // A retry changes nothing. Otherwise a decision is published exactly with valid options, an eligible
  // owner, a current decision to supersede if any, and links that hold. That the superseded decision has
  // a successor already never happens.
  lemma PublishesIff(rs: seq<Request>, r: Request)
    ensures var ds := Run(rs);
      && (Retries(ds, r) ==> Publish(ds, r) == Ok(ds))
      && (!Retries(ds, r) ==>
           (Publish(ds, r).Ok? <==> OptionsValid(r.options) && r.ownerEligible && MaySupersede(ds, r) && LinksHold(r.links, r.knownLinks)))
      && Publish(ds, r) != Err(HasSuccessor)
  {
    RunsAreChained(rs);
    LinksHoldIff(r.links, r.knownLinks);
    LinkReasons(r.links, r.knownLinks, |r.links|);
  }

  lemma {:induction false} LinkReasons(links: seq<Link>, known: set<Link>, n: nat)
    requires n <= |links|
    ensures LinkRefusal(links, known, n) in {None, Some(UnknownLink), Some(DuplicateLink)}
  {
    if n > 0 {
      LinkReasons(links, known, n - 1);
    }
  }

  // It is current, and the decision it supersedes is not any more; nothing else changes.
  lemma PublicationIsRecorded(ds: seq<Decision>, r: Request)
    requires !Retries(ds, r) && Publish(ds, r).Ok?
    ensures var after := Step(ds, r);
      && |after| == |ds| + 1
      && after[|ds|].project == r.project && after[|ds|].supersedes == r.supersedes && after[|ds|].status == Current
      && after[|ds|].key == r.key
      && forall i :: 0 <= i < |ds| ==>
           after[i] == if r.supersedes == Some(i) then Decision(ds[i].project, ds[i].supersedes, Superseded, ds[i].key) else ds[i]
  {
  }

  // A refusal tells the truth about the links.
  lemma LinkReport(links: seq<Link>, known: set<Link>)
    ensures LinksRefusal(links, known) == Some(TooManyLinks) <==> |links| > 100
    ensures LinksRefusal(links, known) == Some(UnknownLink) ==> exists l :: l in links && l !in known
    ensures LinksRefusal(links, known) == Some(DuplicateLink) ==> exists i, j :: 0 <= i < j < |links| && links[i] == links[j]
  {
    if |links| <= 100 {
      LinkReportUpTo(links, known, |links|);
      LinkReasons(links, known, |links|);
    }
  }

  lemma {:induction false} LinkReportUpTo(links: seq<Link>, known: set<Link>, n: nat)
    requires n <= |links|
    ensures LinkRefusal(links, known, n) == Some(UnknownLink) ==> exists l :: l in links && l !in known
    ensures LinkRefusal(links, known, n) == Some(DuplicateLink) ==> exists i, j :: 0 <= i < j < |links| && links[i] == links[j]
  {
    if n > 0 {
      LinkReportUpTo(links, known, n - 1);
      if LinkRefusal(links, known, n - 1).None? {
        assert links[n - 1] in links;
        if links[n - 1] in links[..n - 1] {
          var i :| 0 <= i < n - 1 && links[..n - 1][i] == links[n - 1];
          assert links[i] == links[n - 1];
        }
      }
    }
  }
}
