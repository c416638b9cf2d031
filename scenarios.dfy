/** Clients of `ArticleContents.Study`: what a caller can conclude from its contracts alone. */
module Scenarios {
  import opened Wrappers
  import opened ArticleContents
  import Decimal

  /** Two captures in a row get increasing page ids, distinct keys, and both stay in the store. */
  method SuccessiveCaptures(s: Study, m1: JsObject, m2: JsObject, sender: Sender)
    returns (o1: Outcome, o2: Outcome)
    requires s.Valid() && s.handlers == 1 && Routed(m1) && MatchesSchema(m1) && Routed(m2) && MatchesSchema(m2)
    requires sender.tab.Some?
    modifies s
    ensures s.Valid()
    ensures o1.Stored? && o2.Stored? && o1.pageId < o2.pageId
    ensures Decimal.ToString(o1.pageId) != Decimal.ToString(o2.pageId)
    ensures s.storage.Some?
    ensures Decimal.ToString(o1.pageId) in s.storage.value && Decimal.ToString(o2.pageId) in s.storage.value
    ensures s.storage.value[Decimal.ToString(o1.pageId)] == Enrich(m1, s.normalizeUrl(sender.url), sender.tab.value)
    ensures s.storage.value[Decimal.ToString(o2.pageId)] == Enrich(m2, s.normalizeUrl(sender.url), sender.tab.value)
  {
    o1 := s.Deliver(m1, sender);
    o2 := s.Deliver(m2, sender);
    Decimal.ToStringInjective(o1.pageId, o2.pageId);
  }

  /**
   * A second `RunStudy` keeps the first call's content-script scope and
   * registers no second handler, whatever it is given and whatever it would
   * have met.
   */
  method InitializeTwice(s: Study, first: seq<string>, second: RunOptions, secondFailure: Option<InitFailure>)
    requires s.Valid() && !s.initialized
    modifies s
    ensures s.Valid() && s.initialized && s.handlers == 1
    ensures s.contentScripts == Some(s.matchPatterns(first))
  {
    s.RunStudy(Options(Some(first)), None);
    s.RunStudy(second, secondFailure);
  }

  /**
   * A first `RunStudy` that throws part-way leaves the module without a
   * handler for good: a later call that would succeed changes nothing, and
   * every message is ignored.
   */
  method FailedInitializationIsPermanent(s: Study, domains: seq<string>, failure: InitFailure,
                                         msg: JsObject, sender: Sender)
    returns (outcome: Outcome)
    requires s.Valid() && !s.initialized
    modifies s
    ensures s.Valid() && s.initialized && s.handlers == 0 && s.contentScripts == None
    ensures outcome == Ignored && s.effects == [] && s.counter == 0
    ensures failure == StorageFails <==> s.storage == None
  {
    s.RunStudy(Options(Some(domains)), Some(failure));
    s.RunStudy(Options(Some(domains)), None);
    outcome := s.Deliver(msg, sender);
  }

  /** `runStudy()` without an argument throws before its guard, so it initializes nothing. */
  method RunWithoutArgument(s: Study)
    requires s.Valid() && !s.initialized
    modifies s
    ensures s.Valid() && !s.initialized && s.handlers == 0 && s.storage == None
  {
    s.RunStudy(NoArgument, None);
  }

  /** Captures from a fresh store, with one listener registered. */
  method FreshStudy() {
    var s := new Study(u => u, d => d);
    var before := s.GetStudyDataAsObject();
    assert before == None;

    var page := map["type" := JsString(Channel), "url" := JsString("http://example.com/a"),
                    "title" := JsString("A"), "text" := JsString("hello")];
    var early := s.Deliver(page, Sender("http://example.com/a", Some(7)));
    assert early == Ignored;

    s.RunStudy(Options(Some(["example.com"])), None);
    s.RegisterListener(0);
    var sender := Sender("http://example.com/a", Some(7));
    var rec := Enrich(page, "http://example.com/a", 7);

    var first := s.Deliver(page, sender);
    assert first == Stored(0);
    assert Decimal.ToString(0) == "0";
    assert s.effects == [Call(0, rec), Write("0", rec)];
    assert s.storage == Some(map["0" := rec]);

    var broken := page - {"url"};
    var dropped := s.Deliver(broken, sender);
    assert dropped == Ignored && s.counter == 1;

    var second := s.Deliver(page, sender);
    assert second == Stored(1);
    assert Decimal.ToString(1) == "1";
    assert s.storage == Some(map["0" := rec, "1" := rec]);

    var after := s.GetStudyDataAsObject();
    assert after == Some(map["0" := rec, "1" := rec]);
  }
}
