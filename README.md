# ArticleContents capture ingestion, in Dafny

This project models the capture-ingestion core of the WebScience
`Measurements.ArticleContents` module. A content script extracts an article
from a page and sends it as a message. The module gives each capture a fresh
page id from a counter, stamps it with the normalized page URL and the tab id,
calls every registered listener with it in registration order, and then writes
it into a key-value store under the page id's decimal text. `runStudy` sets
this up once; later calls do nothing, even when the first call threw
part-way. `registerListener` appends a listener. `getStudyDataAsObject`
returns `null` while the store is not open and the whole store once it is.

Files:

- `wrappers.dfy` — `Option`, standing in for JavaScript's `null`.
- `decimal.dfy` — `Decimal.ToString`, which is `Number.prototype.toString` on
  non-negative integers below 10^21, and its inverse `Decimal.Parse`. These
  come with the round-trip and injectivity lemmas that keep two page ids from
  sharing a store key.
- `article_contents.dfy` — the payload and record type (a JavaScript object
  as `map<string, JsValue>`), the pure specification functions (`Enrich`,
  `Broadcast`, `StoreOf`) with their lemmas, and the class `Study`. The class
  holds the module-level state: `initialized`, `storage`, the page-id
  `counter`, `listeners`, the registered content-script patterns, the number
  of registered message handlers, and an `effects` log of listener calls and
  store writes in the order they happen. A ghost field `pages` records, for
  each page id drawn, the record written under it. `Valid()` ties the store
  to `StoreOf(pages)` and keeps every logged write in the store.
- `scenarios.dfy` — clients that use only the contracts: two successive
  captures, a repeated `RunStudy`, a first `RunStudy` that throws part-way, a
  `RunStudy` without an argument, and a fresh run in which captures are
  stored under `"0"` and `"1"` and a payload without `url` is dropped.

Each `runStudy` call and each handler invocation runs to completion before the
next one starts.

`Storage.normalizeUrl` and `Matching.createUrlMatchPatternArrayWithPath(domains, true)`
are library functions that are not part of this model. They are the `const`
fields `normalizeUrl` and `matchPatterns` of `Study`, and the constructor
receives them.

`Messaging.registerListener` is not part of this model either. `Study.Deliver`
models what it does with a message, as its arguments imply. It hands a message
to the handler only when the message's `type` is `"WebScience.articleContent"`
and `type`, `url`, `title` and `text` all hold strings. Otherwise the message
changes nothing. This means the producer's `type` field is the channel name,
not an arbitrary capture kind, and an example capture with `type: "page"`
would not reach the handler.

The handler reads `sender.tab.id` after it has drawn the page id. A sender
with no tab therefore makes it throw with the counter already advanced. The
model keeps this case as the outcome `TabMissing`: the page id is used up,
nothing is broadcast and nothing is stored.

`runStudy` sets `initialized` before its awaits. `Study.RunStudy` therefore
takes the first await that throws as a parameter: opening the store, opening
the counter, or registering the content scripts. It stops there with
`initialized` already set and no handler registered. Every later call returns
at the guard, so such a module never handles a capture. If the store failed to
open, `getStudyDataAsObject` keeps returning `null` although the module is
initialized. A call with no argument throws while destructuring `{domains = []}`,
before the guard, and changes nothing. An options object without `domains`
means no domains.

## Model

| member | source | states |
|---|---|---|
| `Decimal.ToString` | src/WebScience/Measurements/ArticleContents.js:67 | `pageId.toString()` is a non-empty string of decimal digits with no leading zero |
| `Decimal.ParseToString` | src/WebScience/Measurements/ArticleContents.js:67 | reading back the key of page id `n` gives `n` |
| `Decimal.ToStringInjective` | src/WebScience/Measurements/ArticleContents.js:67 | two page ids have the same key exactly when they are equal |
| `Decimal.ToStringParse` | src/WebScience/Measurements/ArticleContents.js:67 | every canonical digit string is the key of exactly the number it denotes, so keys and page ids are in one-to-one correspondence |
| `ArticleContents.Enrich` | src/WebScience/Measurements/ArticleContents.js:64-65 | the record's `url` becomes the normalized sender URL and `tabId` the sender's tab id; every other field (`type`, `title`, `text`, any extra) is the producer's; the keys are the payload's plus `url` and `tabId`; a payload that met the schema still meets it |
| `ArticleContents.Broadcast` | src/WebScience/Measurements/ArticleContents.js:66 | one capture makes exactly one call per registered listener, in registration order, each with the enriched record |
| `ArticleContents.BroadcastSnoc` | src/WebScience/Measurements/ArticleContents.js:66 | one more listener adds exactly one call, at the end |
| `ArticleContents.StoreOfContents` | src/WebScience/Measurements/ArticleContents.js:63-67 | after any run of captures, the key of page id `n` is in the store exactly when capture `n` was written, it holds that capture's record, and every key is the text of a page id already drawn |
| `ArticleContents.NextKeyFresh` | src/WebScience/Measurements/ArticleContents.js:63-67 | the key of the next page id is not yet in the store |
| `ArticleContents.StoreGrowsByOne` | src/WebScience/Measurements/ArticleContents.js:67 | a stored capture adds exactly one new key, so the store's size grows by one, and it leaves every earlier entry unchanged |
| `ArticleContents.StoreSkipsGap` | src/WebScience/Measurements/ArticleContents.js:63-65 | a capture that throws after drawing its page id leaves the store as it was |
| `ArticleContents.WritesStoredAfterCapture` | src/WebScience/Measurements/ArticleContents.js:66-67 | after the listener calls and a write under a fresh key, every write logged so far is still in the store with its record |
| `ArticleContents.CaptureKeepsConsistent` | src/WebScience/Measurements/ArticleContents.js:62-67 | a stored capture keeps the state invariant and its key was not in the store before |
| `ArticleContents.GapKeepsConsistent` | src/WebScience/Measurements/ArticleContents.js:63-65 | a capture that throws at `sender.tab.id` keeps the state invariant, with the page id used up |
| `ArticleContents.Study.constructor` | src/WebScience/Measurements/ArticleContents.js:21-24 | at load, `storage` is null, `initialized` is false, there are no listeners, and no handler or content script is registered |
| `ArticleContents.Study.RunStudy` | src/WebScience/Measurements/ArticleContents.js:31-62 | a call without an argument changes nothing; the first call with options sets `initialized`, then opens an empty store and a counter at 0 and registers content scripts for `domains` (default none) and exactly one handler, stopping at the first await that throws, which leaves no handler and, if the store failed, no store; every later call changes nothing |
| `ArticleContents.Study.HandleCapture` | src/WebScience/Measurements/ArticleContents.js:62-68 | the handler, which exists only once registered, consumes exactly one counter value; with a tab, the effects log grows by one call per listener in order and then the write under the page id's key, the store gains exactly that fresh key, and nothing earlier is overwritten; without a tab, only the counter changes |
| `ArticleContents.Study.CallListeners` | src/WebScience/Measurements/ArticleContents.js:66 | the loop calls every registered listener once, in order, with the record |
| `ArticleContents.Study.Deliver` | src/WebScience/Measurements/ArticleContents.js:62-74 | a message reaches the handler exactly when a handler is registered, its type is the channel and its payload has the four string fields; any other message changes no state at all; a message from a sender without a tab uses up a page id and changes neither the store nor the effects log; a stored one is broadcast in order, then written under a fresh key |
| `ArticleContents.Study.GetStudyDataAsObject` | src/WebScience/Measurements/ArticleContents.js:85-89 | the result is the store: null before initialization, never null once the handler is registered, and otherwise `StoreOf` of the captures so far |
| `ArticleContents.Study.RegisterListener` | src/WebScience/Measurements/ArticleContents.js:91-93 | the listener is appended at the end, with no deduplication, and nothing else changes |
| `Scenarios.SuccessiveCaptures` | src/WebScience/Measurements/ArticleContents.js:63-67 | two captures in a row get strictly increasing page ids with distinct keys, and both records are in the store afterwards |
| `Scenarios.InitializeTwice` | src/WebScience/Measurements/ArticleContents.js:35-37 | after a successful `runStudy`, a second call, whatever its options, leaves the first call's domains in effect and exactly one handler |
| `Scenarios.FailedInitializationIsPermanent` | src/WebScience/Measurements/ArticleContents.js:35-62 | a first `runStudy` that throws part-way leaves the module initialized with no handler; a later call that would succeed changes nothing and a message is ignored; the store is null exactly when opening it failed |
| `Scenarios.RunWithoutArgument` | src/WebScience/Measurements/ArticleContents.js:31-37 | `runStudy()` without an argument throws before the guard and leaves the module uninitialized |

## Left out

- The content-script registration (`browser.contentScripts.register`, and the injected `Readability.js` and `page-content.js`) is host I/O. The model keeps only the match patterns it was given.
- `ArticleContents.Study.RunStudy`: opens an empty store and a counter at 0, because the data and counter value that earlier sessions persisted are not visible here. Durability across restarts is not modelled.
- `Storage.KeyValueStorage`, `Storage.Counter`, `Storage.normalizeUrl`, `Matching.createUrlMatchPatternArrayWithPath` and `Messaging` are not part of this model. They appear as a map, a `nat` field, two function-valued constants and `Study.Deliver`'s routing and schema test.
- Concurrency and `await` interleavings are not modelled. This covers the window in which `initialized` is true while `storage` is still null, the atomicity of `getAndIncrement`, and the unawaited `storage.set`. Every call runs to completion on its own.
- Failures of `getAndIncrement`, of the store write and of `normalizeUrl` inside the handler are not modelled. No branch of the core catches them. Failures of the three awaits in `runStudy` are modelled.
- Listener bodies are opaque ids, and each call is an entry in the effects log. The model does not capture a listener that throws, mutates the shared record object, or registers another listener while the loop runs.
- `ArticleContents.Study.HandleCapture`: uses exact decimal text for every page id, while JavaScript prints numbers at or above 10^21 in exponent form and loses precision above 2^53.
- `debugLog(JSON.stringify(...))` is diagnostic output and is not modelled.
