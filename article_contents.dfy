/**
 * The capture-ingestion core of the ArticleContents measurement: a lifecycle
 * guard that opens the store and the page-id counter once, a message handler
 * that numbers, enriches, broadcasts and stores each article capture, an
 * append-only listener registry and a bulk export of the store.
 *
 * The module-level variables of the source are the fields of `Study`; each
 * handler invocation and each `RunStudy` call runs to completion before the
 * next one starts.
 */
module ArticleContents {
  import opened Wrappers
  import Decimal

  /** The message type the capture handler is registered for. */
  const Channel: string := "WebScience.articleContent"

  /** A JavaScript value, as far as this module tells values apart. */
  datatype JsValue = JsString(str: string) | JsNumber(num: int) | JsOther

  /** A plain JavaScript object: a message payload, and the capture record it becomes. */
  type JsObject = map<string, JsValue>

  /** The origin of a message: the page's URL and, when it came from a tab, the tab's id. */
  datatype Sender = Sender(url: string, tab: Option<int>)

  /** A registered listener callback, by identity. */
  type ListenerId = nat

  /** An observable side effect of the handler: a listener call or a store write. */
  datatype Effect = Call(listener: ListenerId, record: JsObject) | Write(key: string, record: JsObject)

  /** The argument `runStudy` is called with: none (or `null`), or an options object. */
  datatype RunOptions = NoArgument | Options(domains: Option<seq<string>>)

  /** The first await of `runStudy` that throws, if any. */
  datatype InitFailure = StorageFails | CounterFails | RegisterFails

  /** What delivering one message did. */
  datatype Outcome =
    | Ignored              // no handler yet, another message type, or a payload the schema refuses
    | TabMissing(pageId: nat)  // `sender.tab.id` threw after the page id was drawn
    | Stored(pageId: nat)      // broadcast to the listeners and written under the page id's text

  predicate HasString(obj: JsObject, field: string) {
    field in obj && obj[field].JsString?
  }

  /** The payload schema the handler is registered with: four string fields. */
  predicate MatchesSchema(payload: JsObject) {
    HasString(payload, "type") && HasString(payload, "url")
    && HasString(payload, "title") && HasString(payload, "text")
  }

  /** The message is addressed to the capture handler. */
  predicate Routed(msg: JsObject) {
    "type" in msg && msg["type"] == JsString(Channel)
  }

  /**
   * The record the handler builds from a payload: the normalized sender URL
   * replaces the payload's `url` and the tab id is added as `tabId`; every
   * other field, `type`, `title` and `text` among them, is the producer's.
   */
  function Enrich(payload: JsObject, normalizedUrl: string, tabId: int): (rec: JsObject)
    ensures rec.Keys == payload.Keys + {"url", "tabId"}
    ensures rec["url"] == JsString(normalizedUrl) && rec["tabId"] == JsNumber(tabId)
    ensures forall f :: f in payload && f != "url" && f != "tabId" ==> rec[f] == payload[f]
    ensures MatchesSchema(payload) ==> MatchesSchema(rec)
  {
    payload["url" := JsString(normalizedUrl)]["tabId" := JsNumber(tabId)]
  }

  /** The calls one capture makes: each listener of `ls`, in order, once, with `rec`. */
  function Broadcast(ls: seq<ListenerId>, rec: JsObject): (calls: seq<Effect>)
    ensures |calls| == |ls|
    ensures forall i :: 0 <= i < |ls| ==> calls[i] == Call(ls[i], rec)
  {
    if ls == [] then [] else [Call(ls[0], rec)] + Broadcast(ls[1..], rec)
  }

  lemma BroadcastSnoc(ls: seq<ListenerId>, l: ListenerId, rec: JsObject)
    ensures Broadcast(ls + [l], rec) == Broadcast(ls, rec) + [Call(l, rec)]
  {
    var a, b := Broadcast(ls + [l], rec), Broadcast(ls, rec) + [Call(l, rec)];
    assert |a| == |b|;
    forall i | 0 <= i < |a| ensures a[i] == b[i] {
      assert (ls + [l])[i] == if i < |ls| then ls[i] else l;
    }
  }

  /**
   * The store after the captures that drew page ids 0 .. |pages| - 1:
   * `pages[n]` is the record written under the text of `n`, or `None` when
   * that capture threw before its write.
   */
  function StoreOf(pages: seq<Option<JsObject>>): map<string, JsObject>
    decreases |pages|
  {
    if pages == [] then map[]
    else
      var n := |pages| - 1;
      match pages[n]
      case Some(rec) => StoreOf(pages[..n])[Decimal.ToString(n) := rec]
      case None => StoreOf(pages[..n])
  }

  /**
   * The store holds exactly the written captures, each under its own page id's
   * text: a later write never overwrites an earlier one, and every key is the
   * text of a page id already drawn.
   */
  lemma {:induction false} StoreOfContents(pages: seq<Option<JsObject>>)
    ensures forall n :: 0 <= n < |pages| ==>
      (Decimal.ToString(n) in StoreOf(pages) <==> pages[n].Some?)
    ensures forall n :: 0 <= n < |pages| && pages[n].Some? ==>
      StoreOf(pages)[Decimal.ToString(n)] == pages[n].value
    ensures forall k :: k in StoreOf(pages) ==>
      Decimal.IsDecimal(k) && Decimal.Parse(k) < |pages| && Decimal.ToString(Decimal.Parse(k)) == k
    decreases |pages|
  {
    if pages != [] {
      var last := |pages| - 1;
      var prefix := pages[..last];
      StoreOfContents(prefix);
      var store := StoreOf(pages);
      assert store == if pages[last].Some?
        then StoreOf(prefix)[Decimal.ToString(last) := pages[last].value]
        else StoreOf(prefix);
      Decimal.ParseToString(last);
      forall n | 0 <= n < |pages|
        ensures Decimal.ToString(n) in store <==> pages[n].Some?
        ensures pages[n].Some? ==> store[Decimal.ToString(n)] == pages[n].value
      {
        Decimal.ToStringInjective(n, last);
        if n < last {
          assert prefix[n] == pages[n];
        }
      }
      forall k | k in store
        ensures Decimal.IsDecimal(k) && Decimal.Parse(k) < |pages| && Decimal.ToString(Decimal.Parse(k)) == k
      {
        if k !in StoreOf(prefix) {
          Decimal.ParseToString(last);
        }
      }
    }
  }

  /** The next page id's key is not yet in the store. */
  lemma NextKeyFresh(pages: seq<Option<JsObject>>)
    ensures Decimal.ToString(|pages|) !in StoreOf(pages)
  {
    StoreOfContents(pages);
    Decimal.ParseToString(|pages|);
  }

  /** Writing the next page's record is one map update. */
  lemma StoreOfSnoc(pages: seq<Option<JsObject>>, rec: JsObject)
    ensures StoreOf(pages + [Some(rec)]) == StoreOf(pages)[Decimal.ToString(|pages|) := rec]
  {
    assert (pages + [Some(rec)])[..|pages|] == pages;
  }

  /** A capture that is written adds exactly one key, and changes no other entry. */
  lemma StoreGrowsByOne(pages: seq<Option<JsObject>>, rec: JsObject)
    ensures var key := Decimal.ToString(|pages|);
      && key !in StoreOf(pages)
      && StoreOf(pages + [Some(rec)]) == StoreOf(pages)[key := rec]
      && |StoreOf(pages + [Some(rec)])| == |StoreOf(pages)| + 1
  {
    NextKeyFresh(pages);
    StoreOfSnoc(pages, rec);
    MapAddSize(StoreOf(pages), Decimal.ToString(|pages|), rec);
  }

  lemma MapAddSize<K, V>(m: map<K, V>, k: K, v: V)
    requires k !in m
    ensures |m[k := v]| == |m| + 1
  {
    assert m[k := v].Keys == m.Keys + {k};
  }

  /** A capture that throws before its write leaves the store as it was. */
  lemma StoreSkipsGap(pages: seq<Option<JsObject>>)
    ensures StoreOf(pages + [None]) == StoreOf(pages)
  {
    assert (pages + [None])[..|pages|] == pages;
  }

  /** Every write in `log` is still in `store`, under its key and with its record. */
  ghost predicate WritesStored(log: seq<Effect>, store: map<string, JsObject>) {
    forall i :: 0 <= i < |log| && log[i].Write? ==>
      log[i].key in store && store[log[i].key] == log[i].record
  }

  /** Listener calls followed by a write under a fresh key keep every earlier write in place. */
  lemma WritesStoredAfterCapture(log: seq<Effect>, store: map<string, JsObject>,
                                 ls: seq<ListenerId>, key: string, rec: JsObject)
    requires WritesStored(log, store) && key !in store
    ensures WritesStored(log + Broadcast(ls, rec) + [Write(key, rec)], store[key := rec])
  {
    var log' := log + Broadcast(ls, rec) + [Write(key, rec)];
    forall i | 0 <= i < |log'|
      ensures log'[i].Write? ==>
        log'[i].key in store[key := rec] && store[key := rec][log'[i].key] == log'[i].record
    {
      if i < |log| {
        assert log'[i] == log[i];
      } else if i < |log| + |ls| {
        assert log'[i] == Broadcast(ls, rec)[i - |log|];
      }
    }
  }

  /**
   * The invariant of the module's state, over its values: at most one handler,
   * registered exactly when the content scripts were, and then the store is
   * open; the store opens only after initialization; no page id is drawn
   * before a handler exists; and the store holds what the pages say and
   * everything the write log says.
   */
  ghost predicate Consistent(initialized: bool, handlers: nat, storage: Option<map<string, JsObject>>,
                             contentScripts: Option<seq<string>>, counter: nat,
                             pages: seq<Option<JsObject>>, effects: seq<Effect>)
  {
    && handlers <= 1
    && (handlers == 1 <==> contentScripts.Some?)
    && (handlers == 1 ==> storage.Some?)
    && (storage.Some? ==> initialized)
    && counter == |pages|
    && (handlers == 0 ==> pages == [] && effects == [])
    && (storage.Some? ==> storage.value == StoreOf(pages) && WritesStored(effects, storage.value))
  }

  /** A capture written under the next page id keeps the state consistent. */
  lemma CaptureKeepsConsistent(handlers: nat, store: map<string, JsObject>, contentScripts: Option<seq<string>>,
                               pages: seq<Option<JsObject>>, effects: seq<Effect>,
                               ls: seq<ListenerId>, rec: JsObject)
    requires Consistent(true, handlers, Some(store), contentScripts, |pages|, pages, effects) && handlers == 1
    ensures var key := Decimal.ToString(|pages|);
      && key !in store
      && Consistent(true, handlers, Some(store[key := rec]), contentScripts, |pages| + 1,
                    pages + [Some(rec)], effects + Broadcast(ls, rec) + [Write(key, rec)])
  {
    StoreGrowsByOne(pages, rec);
    WritesStoredAfterCapture(effects, store, ls, Decimal.ToString(|pages|), rec);
  }

  /** A capture that throws after drawing its page id keeps the state consistent. */
  lemma GapKeepsConsistent(handlers: nat, store: map<string, JsObject>, contentScripts: Option<seq<string>>,
                           pages: seq<Option<JsObject>>, effects: seq<Effect>)
    requires Consistent(true, handlers, Some(store), contentScripts, |pages|, pages, effects) && handlers == 1
    ensures Decimal.ToString(|pages|) !in store
    ensures Consistent(true, handlers, Some(store), contentScripts, |pages| + 1, pages + [None], effects)
  {
    NextKeyFresh(pages);
    StoreSkipsGap(pages);
  }

  /** The module's state: the variables the source keeps at module level and in `runStudy`. */
  class Study {
    /** `Storage.normalizeUrl`, a library function outside this model. */
    const normalizeUrl: string -> string
    /** `Matching.createUrlMatchPatternArrayWithPath(domains, true)`, a library function outside this model. */
    const matchPatterns: seq<string> -> seq<string>

    var initialized: bool
    /** The key-value store; `None` while `storage` is still null. */
    var storage: Option<map<string, JsObject>>
    /** The next value the page-id counter hands out. */
    var counter: nat
    var listeners: seq<ListenerId>
    /** The match patterns of the registered content scripts, once registered. */
    var contentScripts: Option<seq<string>>
    /** How many handlers are registered for `Channel`. */
    var handlers: nat
    /** Listener calls and store writes, in the order they happened. */
    var effects: seq<Effect>
    /** Per page id drawn so far, the record written under it, if any. */
    ghost var pages: seq<Option<JsObject>>

    ghost predicate Valid()
      reads this
    {
      Consistent(initialized, handlers, storage, contentScripts, counter, pages, effects)
    }

    /** The state when the module is loaded. */
    constructor (normalizeUrl: string -> string, matchPatterns: seq<string> -> seq<string>)
      ensures Valid()
      ensures this.normalizeUrl == normalizeUrl && this.matchPatterns == matchPatterns
      ensures !initialized && storage == None && counter == 0 && listeners == []
      ensures contentScripts == None && handlers == 0 && effects == []
    {
      this.normalizeUrl := normalizeUrl;
      this.matchPatterns := matchPatterns;
      initialized := false;
      storage := None;
      counter := 0;
      listeners := [];
      contentScripts := None;
      handlers := 0;
      effects := [];
      pages := [];
    }

    /**
     * `runStudy`: without an argument, throw before anything else; on the
     * first call, set `initialized`, then open the store, open the counter,
     * register the content scripts for `domains` (default none) and the
     * capture handler, stopping at the first of these awaits that throws
     * (`failure`); on any later call, do nothing. A call that fails part-way
     * leaves the module initialized, so no later call retries.
     */
    method RunStudy(options: RunOptions, failure: Option<InitFailure>)
      requires Valid()
      modifies this`initialized, this`storage, this`counter, this`contentScripts, this`handlers, this`pages
      ensures Valid()
      ensures options.NoArgument? || old(initialized) ==> unchanged(this)
      ensures options.Options? && !old(initialized) ==>
        var domains := options.domains.GetOr([]);
        && initialized && counter == 0
        && storage == (if failure.Some? && failure.value.StorageFails? then None else Some(map[]))
        && contentScripts == (if failure.None? then Some(matchPatterns(domains)) else None)
        && handlers == (if failure.None? then 1 else 0)
    {
      if options.NoArgument? {
        return;
      }
      var domains := options.domains.GetOr([]);
      if initialized {
        return;
      }
      assert storage == None && handlers == 0 && contentScripts == None;
      initialized := true;
      if failure.Some? && failure.value.StorageFails? {
        return;
      }
      storage := Some(map[]);
      if failure.Some? && failure.value.CounterFails? {
        return;
      }
      counter := 0;
      var matches := matchPatterns(domains);
      if failure.Some? {
        return;
      }
      contentScripts := Some(matches);
      handlers := 1;
      pages := [];
    }

    /**
     * The capture handler registered by `runStudy`: draw a page id, enrich the
     * payload, call every listener in order, then write the record under the
     * page id's text. A sender without a tab makes `sender.tab.id` throw after
     * the page id was drawn.
     */
    method HandleCapture(depthInfo: JsObject, sender: Sender) returns (outcome: Outcome)
      requires Valid() && handlers == 1 && MatchesSchema(depthInfo)
      modifies this`counter, this`storage, this`effects, this`pages
      ensures Valid()
      ensures counter == old(counter) + 1
      ensures outcome == if sender.tab.Some? then Stored(old(counter)) else TabMissing(old(counter))
      ensures Decimal.ToString(old(counter)) !in old(storage.value)
      ensures sender.tab.None? ==> storage == old(storage) && effects == old(effects)
      ensures sender.tab.Some? ==>
        var rec := Enrich(depthInfo, normalizeUrl(sender.url), sender.tab.value);
        var key := Decimal.ToString(old(counter));
        && effects == old(effects) + Broadcast(listeners, rec) + [Write(key, rec)]
        && storage == Some(old(storage.value)[key := rec])
    {
      var pageId := counter;
      counter := counter + 1;
      var url := normalizeUrl(sender.url);
      if sender.tab.None? {
        GapKeepsConsistent(handlers, storage.value, contentScripts, pages, effects);
        pages := pages + [None];
        return TabMissing(pageId);
      }
      var rec := Enrich(depthInfo, url, sender.tab.value);
      var key := Decimal.ToString(pageId);
      var store := storage.value;
      CaptureKeepsConsistent(handlers, store, contentScripts, pages, effects, listeners, rec);
      CallListeners(rec);
      storage := Some(store[key := rec]);
      effects := effects + [Write(key, rec)];
      pages := pages + [Some(rec)];
      outcome := Stored(pageId);
    }

    /** The `for ... of listeners` loop: call each listener, in order, with `rec`. */
    method CallListeners(rec: JsObject)
      modifies this`effects
      ensures effects == old(effects) + Broadcast(listeners, rec)
    {
      var ls := listeners;
      var i := 0;
      while i < |ls|
        invariant 0 <= i <= |ls|
        invariant effects == old(effects) + Broadcast(ls[..i], rec)
      {
        BroadcastSnoc(ls[..i], ls[i], rec);
        assert ls[..i + 1] == ls[..i] + [ls[i]];
        effects := effects + [Call(ls[i], rec)];
        i := i + 1;
      }
      assert ls[..i] == ls;
    }

    /**
     * A message arriving from a content script: it reaches the capture handler
     * only once one is registered, when its type is `Channel` and when its
     * payload matches the schema; otherwise nothing changes.
     */
    method Deliver(msg: JsObject, sender: Sender) returns (outcome: Outcome)
      requires Valid()
      modifies this`counter, this`storage, this`effects, this`pages
      ensures Valid()
      ensures outcome == Ignored <==> !(old(handlers) == 1 && Routed(msg) && MatchesSchema(msg))
      ensures outcome == Ignored ==> unchanged(this)
      ensures outcome != Ignored ==> outcome.pageId == old(counter) && counter == old(counter) + 1
      ensures outcome.Stored? <==> old(handlers) == 1 && Routed(msg) && MatchesSchema(msg) && sender.tab.Some?
      ensures outcome.TabMissing? ==> storage == old(storage) && effects == old(effects)
      ensures outcome.Stored? ==>
        var rec := Enrich(msg, normalizeUrl(sender.url), sender.tab.value);
        var key := Decimal.ToString(outcome.pageId);
        && key !in old(storage.value)
        && effects == old(effects) + Broadcast(listeners, rec) + [Write(key, rec)]
        && storage == Some(old(storage.value)[key := rec])
    {
      if handlers == 0 || !Routed(msg) || !MatchesSchema(msg) {
        return Ignored;
      }
      outcome := HandleCapture(msg, sender);
    }

    /**
     * `getStudyDataAsObject`: null while the store is not open, which is always
     * the case before initialization and never once the handler is registered;
     * otherwise the whole store.
     */
    method GetStudyDataAsObject() returns (data: Option<map<string, JsObject>>)
      requires Valid()
      ensures !initialized ==> data.None?
      ensures handlers == 1 ==> data.Some?
      ensures data.Some? ==> data.value == StoreOf(pages)
      ensures data == storage
    {
      data := storage;
    }

    /** `registerListener`: append, with no deduplication. */
    method RegisterListener(listener: ListenerId)
      requires Valid()
      modifies this`listeners
      ensures Valid()
      ensures listeners == old(listeners) + [listener]
    {
      listeners := listeners + [listener];
    }
  }
}
