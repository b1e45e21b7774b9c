# Widget visibility and object utilities of LaxarJS, modelled in Dafny

This project models two parts of the LaxarJS runtime and proves properties of them.

**The per-widget visibility handler.** This is `create(context, areaHelper)` in
`lib/runtime/widget_services_visibility.js`. Each widget gets one handler. It
keeps the handler's state:

- whether the widget is currently visible;
- an optional context property that mirrors that flag;
- the ordered lists of show and hide listeners;
- the visibility and override flags for the widget's own areas;
- two event-bus subscriptions, created lazily.

The handler reacts to `didChangeAreaVisibility.<area>` events for its own
area. It sends `changeAreaVisibilityRequest.<area>.<bool>` and
`changeWidgetVisibilityRequest.<widget>.<bool>` requests. It answers
`changeAreaVisibilityRequest.<widgetId>` requests for its areas.

`Visibility.Handler` is a class with those fields. Each closure of `create`
becomes a method that changes them, and its contract states the complete new
state. The event bus is `EventBus.Bus`, a recorder with three parts:

- the subscriptions made, where a handle is an index;
- the handles still active;
- an outbox of the facts and requests published, in order.

The area helper is abstract: three functions, `fullName`, `localName` and
`isVisible`. Listeners are opaque identities, and every call made to one is
appended to an `invocations` log.

Some rules are pure, and they are functions with lemmas about them:

- the area-visibility rule;
- the change detection of `updateAreaVisibility`;
- removing a listener from a list;
- the topic format.

`UpdateAreas` runs a loop, and it is proved against the function
`ApplyEntries`. `RemoveAll` recurses like the source's `remove` helper, and it
is proved against the filter `Without`.

**The object utilities** `path`, `setPath`, `deepClone`, `forEach` and
`options`. The implementation is not part of this model. These utilities are
modelled by what `lib/utilities/spec/object_spec.js` asserts of them, as
functions over a JSON-like datatype `ObjectUtils.Json`. `forEach` is a method
that returns the calls it makes. Dotted paths and topics are split and joined
by the module `Dotted`, which proves that the two round trips hold. The module
`ObjectExamples` replays every expectation of that test suite on the suite's
own fixtures: the `path`, `setPath`, `deepClone`, `forEach` and `options`
tests.

Three consequences of the handler's code that its callers may not expect,
each modelled as the code has it:

- **`isAreaVisible` can return `undefined`.** `areaVisible && (containerVisible || overrideByArea[name])` gives `undefined` when the area's recorded visibility is `true`, the container is hidden and there is no override. In that case the responder publishes nothing, so such an area is not reported as hidden, although it is not shown either.
- **`unsubscribe` keeps the change subscription.** It does not re-evaluate the change subscription, so removing the last listener keeps it active. `onShow`, `onHide` and `onChange` always add a listener, so they never find the subscription unneeded. Only a later `track(null)` or `track('')`, made while both lists are empty, drops it.
- **`release` keeps the lists and handles.** It leaves both listener lists as they are and does not reset the handles. Calling it a second time cancels the same handles again, which changes nothing. The cancelled change handle is kept for as long as a subscription is still needed, so `onShow`, `onHide`, `onChange` and `track` do not subscribe again. A `track(null)` or `track('')` made while both lists are empty drops the handle, and the next registration then subscribes anew.

## Model

| member | source | states |
|---|---|---|
| Visibility.AreaVisibility | lib/runtime/widget_services_visibility.js:213-219 | An area with no recorded visibility takes the container's visibility. Otherwise, the result is truthy exactly when the recorded visibility is true and the container is visible or the area has an override. It is `undefined` exactly when the recorded visibility is true, the container is hidden and there is no override. A recorded `false` always gives `false`. A recorded `true` with an override always gives `true`. |
| Visibility.UpdateOverrides | lib/runtime/widget_services_visibility.js:189-198 | After an update, every area named in it is recorded, and it has an override exactly when `overrideContainer` was true. An area not named keeps its recorded visibility and its override. |
| Visibility.UpdateValues | lib/runtime/widget_services_visibility.js:192 | When no name appears twice, each named area ends with the visibility the update gives it. |
| Visibility.UpdateRequests | lib/runtime/widget_services_visibility.js:189-205 | When no name appears twice, the requests sent are exactly the entries whose visibility or override differs from the state before the call, in the order of the update. |
| Visibility.UnchangedPublishesNothing | lib/runtime/widget_services_visibility.js:189-204 | An update in which no area changes visibility or override sends no request and leaves the area state as it was, repeated names included. |
| Visibility.RepeatedUpdatePublishesNothing | lib/runtime/widget_services_visibility.js:189-205 | When no name appears twice, applying the same update a second time sends no request and changes no state. |
| Visibility.RequestMessages | lib/runtime/widget_services_visibility.js:200-202 | There is one `changeAreaVisibilityRequest.<fullName(name)>.<visible>` request per changed area, with payload `{area, visible}` and no delivery to the sender. |
| Visibility.TopicRoundTrip | lib/runtime/widget_services_visibility.js:201 | Parsing `prefix.name.bool` gives back `prefix.name` and the boolean. |
| Visibility.TopicSegments | lib/runtime/widget_services_visibility.js:307 | The segments of a `didChangeAreaVisibility.<area>.<bool>` topic are the segments of `didChangeAreaVisibility.<area>`, followed by one boolean segment. |
| Visibility.TopicInjective | lib/runtime/widget_services_visibility.js:241 | Under one prefix, different names or different booleans give different topics. |
| Visibility.WithoutRemovesEveryOccurrence | lib/runtime/widget_services_visibility.js:259-267 | After removal the callback does not occur. Every other listener occurs as often as before. |
| Visibility.WithoutAppend | lib/runtime/widget_services_visibility.js:265 | Removal works piece by piece on a concatenation, so the remaining listeners keep their relative order. |
| Visibility.WithoutAbsent | lib/runtime/widget_services_visibility.js:264 | Removing an unknown callback leaves the list unchanged. |
| Visibility.WithoutSplice | lib/runtime/widget_services_visibility.js:263-266 | Splicing out one found occurrence and then removing all occurrences is the same as removing all of them directly. |
| Visibility.IndexOf | lib/runtime/widget_services_visibility.js:263 | Returns -1 exactly when the callback is absent. Otherwise it returns the position of the callback's first occurrence. |
| Visibility.RemoveAll | lib/runtime/widget_services_visibility.js:262-267 | The find, splice and repeat recursion returns the list with every occurrence removed. |
| Visibility.Handler.constructor | lib/runtime/widget_services_visibility.js:38-70 | The initial visibility is what the area helper reports for the widget's area. There are no listeners, no tracking property, no recorded areas and no subscriptions. |
| Visibility.Handler.UpdateChangeSubscription | lib/runtime/widget_services_visibility.js:280-299 | A subscription to `didChangeAreaVisibility.<widgetArea>` is made when one is needed and none is held. A held one is kept while needed. When none is needed, the subscription is cancelled and the handle dropped. It is needed when a truthy tracking property is set or a listener list is non-empty. |
| Visibility.Handler.OnHide | lib/runtime/widget_services_visibility.js:89-93 | Appends the callback to the hide listeners only, then re-evaluates the change subscription. A handle is then held: a new one when none was, otherwise the old one, which stays cancelled after `release`. |
| Visibility.Handler.OnShow | lib/runtime/widget_services_visibility.js:109-113 | Appends the callback to the show listeners only, then re-evaluates the change subscription. A handle is then held: a new one when none was, otherwise the old one, which stays cancelled after `release`. |
| Visibility.Handler.OnChange | lib/runtime/widget_services_visibility.js:129-134 | Appends the callback to both lists, then re-evaluates the change subscription. |
| Visibility.Handler.Track | lib/runtime/widget_services_visibility.js:152-159 | Sets the tracking property. A non-null property is written at once with the current visibility. Then the change subscription is re-evaluated. |
| Visibility.Handler.Unsubscribe | lib/runtime/widget_services_visibility.js:259-269 | Both lists lose every occurrence of the callback. Nothing else changes; in particular the change subscription stays as it is. |
| Visibility.Handler.Release | lib/runtime/widget_services_visibility.js:273-276 | Cancels the handles held and leaves the rest of the state as it is, so a second call changes nothing. |
| Visibility.Handler.HandleChange | lib/runtime/widget_services_visibility.js:285-292 | An event equal to the current visibility changes nothing. Otherwise it sets the visibility and writes the truthy tracking property. It calls the show listeners (when becoming visible) or the hide listeners (when becoming hidden), in registration order, and no others. |
| Visibility.Handler.Notify | lib/runtime/widget_services_visibility.js:291 | Appends one call per listener, in list order. |
| Visibility.Handler.UpdateArea | lib/runtime/widget_services_visibility.js:190-203 | Updates one area as ApplyEntry does. When its visibility or override changed, it sends one `changeAreaVisibilityRequest.<fullName(name)>.<visible>` request with payload `{area, visible}`; otherwise it sends nothing. |
| Visibility.Handler.ApplyArea | lib/runtime/widget_services_visibility.js:190-199 | Updates one area's visibility and override as ApplyEntry does, and returns whether either one changed. |
| Visibility.Handler.UpdateAreas | lib/runtime/widget_services_visibility.js:189-205 | The loop over the areas leaves the state and the outbox exactly as ApplyEntries and RequestMessages give them. |
| Visibility.Handler.UpdateAreaVisibility | lib/runtime/widget_services_visibility.js:181-208 | Subscribes to `changeAreaVisibilityRequest.<widgetId>` only when no such subscription is held, so at most once over all calls. It then applies the update as ApplyEntries does. |
| Visibility.Handler.UpdateWidgetVisibility | lib/runtime/widget_services_visibility.js:239-243 | Sends one `changeWidgetVisibilityRequest.<widgetId>.<visible>` request, with payload `{widget, visible}`. |
| Visibility.Handler.Respond | lib/runtime/widget_services_visibility.js:303-311 | Publishes `didChangeAreaVisibility.<area>.<bool>` with payload `{area, visible}` exactly when the area rule for the area's local name gives a strict boolean, and publishes nothing otherwise. |
| EventBus.Bus.Subscribe | lib/runtime/widget_services_visibility.js:186 | Records the subscription, returns a fresh handle and makes it active. |
| EventBus.Bus.Unsubscribe | lib/runtime/widget_services_visibility.js:274-275 | Calling the function `subscribe` returned deactivates exactly that handle; the same call at line 296 drops the change subscription. |
| EventBus.Bus.Publish | lib/runtime/widget_services_visibility.js:308 | Appends one fact with the given topic, payload and delivery flag to the outbox. |
| EventBus.Bus.PublishAndGatherReplies | lib/runtime/widget_services_visibility.js:202 | Appends one request with the given topic, payload and delivery flag to the outbox; line 242 sends the widget request the same way. |
| Dotted.Split | lib/utilities/spec/object_spec.js:73-78 | Splitting always gives at least one segment (`''` gives `['']`), and no segment contains a dot. |
| Dotted.JoinSplit | lib/utilities/spec/object_spec.js:73-78 | Joining the segments of a split gives back the string. |
| Dotted.SplitJoin | lib/utilities/spec/object_spec.js:36-69 | Splitting the join of dot-free segments gives back the segments. |
| Dotted.SplitTwo | lib/utilities/spec/object_spec.js:37 | Two dot-free names joined by one dot split into exactly those two names. |
| Dotted.SplitAppend | lib/utilities/spec/object_spec.js:76-77 | Splitting `a.b` gives the segments of `a` followed by those of `b`. |
| ObjectUtils.Child | lib/utilities/spec/object_spec.js:66-69 | Only objects and arrays have children. An object has exactly its own keys. An array has a child exactly at a canonical index below its length. The child is the property's value or the element at that index. |
| ObjectUtils.LookupResolves | lib/utilities/spec/object_spec.js:36-62 | `Lookup` is the walk of `path` (`Path` splits the string, then walks). On non-empty segments, it gives the value when every key exists. It gives the default when a key is missing, an intermediate value is falsy or an intermediate value is not an object. |
| ObjectUtils.PathResolves | lib/utilities/spec/object_spec.js:36-62 | The same, stated for the dotted string that joins the segments. |
| ObjectUtils.LookupThroughPrimitive | lib/utilities/spec/object_spec.js:54-56 | Descending below a value that is not an object or array gives the default. |
| ObjectUtils.LookupThroughFalsy | lib/utilities/spec/object_spec.js:48-50 | Descending below `null`, `undefined`, `false`, `0` or `''` gives the default. |
| ObjectUtils.LookupStopsAtEmpty | lib/utilities/spec/object_spec.js:73-78 | The walk stops at the first empty segment, and whatever follows it is ignored. |
| ObjectUtils.PathIgnoresAfterEmpty | lib/utilities/spec/object_spec.js:76-77 | `path(obj, p + '.')` and `path(obj, p + '..')` equal `path(obj, p)`. |
| ObjectUtils.PathOfEmpty | lib/utilities/spec/object_spec.js:74-75 | `''` and `'.'` give the object itself. |
| ObjectUtils.Put | lib/utilities/spec/object_spec.js:104-109 | The single write `node[key] = value` of `setPath`: it succeeds exactly on an object, or on an array with an index key. The container keeps its kind, and reading the key back gives the value. |
| ObjectUtils.PutIndexPads | lib/utilities/spec/object_spec.js:104-109 | Writing array index k keeps the other old slots, fills the gap between the old end and k with `null`, and puts the value in slot k. |
| ObjectUtils.AssignThenResolve | lib/utilities/spec/object_spec.js:127-137 | `Assign` is the walk of `setPath` (`SetPath` splits the string, then assigns). After a successful write, resolving the same segments on the result finds the value. This holds for every path, empty segments included, since each of them is the key `''`. |
| ObjectUtils.AssignThenLookup | lib/utilities/spec/object_spec.js:104-123 | Reading back with `path` along a path of non-empty segments after a successful `setPath` gives the value written. |
| ObjectUtils.SetPathThenPath | lib/utilities/spec/object_spec.js:104-123 | The same, for the dotted string. |
| ObjectUtils.AssignObjectFrame | lib/utilities/spec/object_spec.js:104-137 | `setPath` on an object adds at most the first segment's key and leaves every other key unchanged. |
| ObjectUtils.AssignCreatesContainer | lib/utilities/spec/object_spec.js:113-123 | A missing, falsy or non-object intermediate is replaced by an array exactly when the next segment is an index, and by an object otherwise. |
| ObjectUtils.AssignDescends | lib/utilities/spec/object_spec.js:113-123 | Through an existing object or array, `setPath` writes into that container rather than replacing it: the child at the first segment becomes the result of writing the rest of the path into the old child. With AssignObjectFrame this gives the frame at every level. |
| ObjectUtils.AssignKeepsKind | lib/utilities/spec/object_spec.js:113-123 | `setPath` returns a container of the kind it was given. |
| ObjectUtils.SetPathEmptyKey | lib/utilities/spec/object_spec.js:128-129 | The empty path writes the key `''` of the root. |
| ObjectUtils.DeepClone | lib/utilities/spec/object_spec.js:148-188 | The clone equals the original, including `null` and `undefined` values. As values, later changes to one cannot reach the other. |
| ObjectUtils.ForEach | lib/utilities/spec/object_spec.js:203-225 | An array gets one call `(element, index, array)` per element, in index order. An object gets exactly one call `(value, key, object)` per own key. |
| ObjectUtils.ForEachElement | lib/utilities/spec/object_spec.js:218-225 | Makes one call per element, in index order. |
| ObjectUtils.ForEachEntry | lib/utilities/spec/object_spec.js:203-214 | Makes one call per own key, with that key's value, and no key twice. |
| ObjectUtils.EntryCallsInclude | lib/utilities/spec/object_spec.js:211-213 | Every own property is among the calls as `(value, key, object)`. |
| ObjectUtils.Options | lib/utilities/spec/object_spec.js:248-273 | The result has the keys of the defaults and of the options. Option values win, and every other key keeps its default. `null` or `undefined` options give the defaults. |
| ObjectUtils.OptionsIdempotent | lib/utilities/spec/object_spec.js:248-253 | Applying the same options twice is the same as applying them once. |
| ObjectUtils.OptionsPath | lib/utilities/spec/object_spec.js:248-253 | A given option is read back from the result. A missing option falls back to the default's value. |
| ObjectExamples.PathFindsValue | lib/utilities/spec/object_spec.js:36-38 | `path(obj, 'one.two')` is 2. |
| ObjectExamples.PathMissingKeyGivesDefault | lib/utilities/spec/object_spec.js:42-62 | `'one.twoo'` gives 666 when it is the default, and `undefined` when no default is given. |
| ObjectExamples.PathFalsyGivesDefault | lib/utilities/spec/object_spec.js:48-50 | `'zero.one'` goes through `null` and gives the default. |
| ObjectExamples.PathNonObjectGivesDefault | lib/utilities/spec/object_spec.js:54-56 | `'one.two.three'` goes through the number 2 and gives the default. |
| ObjectExamples.PathThroughArray | lib/utilities/spec/object_spec.js:66-67 | `'arr.0.name'` gives 'Peter'. |
| ObjectExamples.PathThroughArraySecond | lib/utilities/spec/object_spec.js:68 | `'arr.1.name'` gives 'Hans'. |
| ObjectExamples.PathAbortsAtEmptySegment | lib/utilities/spec/object_spec.js:73-78 | `''` and `'.'` give the object itself. `'zero.'` equals `'zero'`, and `'one..'` equals `'one'`. |
| ObjectExamples.SetPathPadsArray | lib/utilities/spec/object_spec.js:104-109 | `'listOfStrings.5'` gives `['A', 'B', 'C', null, null, 'Y']`. |
| ObjectExamples.SetPathCreatesContainers | lib/utilities/spec/object_spec.js:113-123 | `'lists.0.objects.4.value'` creates a one-element list. Its element holds a five-slot array: four `null`s, then `{value: 'B'}`. |
| ObjectExamples.SetPathEmptySegments | lib/utilities/spec/object_spec.js:127-137 | `''` writes `obj['']`. `'lists.0..4.value'` nests the array under the key `''`. `'.'` turns `obj['']` into `{'': 'Y'}`. |
| ObjectExamples.OptionsFillsDefaults | lib/utilities/spec/object_spec.js:248-273 | The test fixture gives `{pollingMillis: 200, pollingTimeout: 1000}`. `null` and `undefined` options give the defaults. The options are values, so they cannot be modified. |
| ObjectExamples.DeepCloneIsIndependent | lib/utilities/spec/object_spec.js:148-188 | After the test's changes to the clone, the clone has `wife.name` 'Henrietta' and `pets` ['tiger', 'cat', 'mouse']. The original still has 'Gisela' and ['dog', 'cat']. `null` and `undefined` are cloned as they are. |
| ObjectExamples.ForEachCallsEveryEntry | lib/utilities/spec/object_spec.js:203-214 | The test object gets the calls `('eins', 'one', obj)`, `('zwei', 'two', obj)` and `(3, 'three', obj)`. |
| ObjectExamples.ForEachCallsEveryElement | lib/utilities/spec/object_spec.js:218-225 | The test array gets exactly the calls `('eins', 0, arr)`, `('zwei', 1, arr)` and `(3, 2, arr)`, in that order. |

## Left out

- The event bus implementation is not part of this model. That covers topic pattern matching, delivery order, reply gathering, timeouts and the heartbeat. The bus only records the subscriptions, the cancelled handles and the published topics and payloads.
- Subscribers are not called by the bus. `HandleChange` and `Respond` are the two subscribed closures, and they require the subscription that would run them to be active.
- The promises of `updateAreaVisibility` and `updateWidgetVisibility` are not modelled: `Promise.all(...).then(noOp)` completes asynchronously.
- `api.isVisible()` is not a separate member. It asks the area helper about the widget's area, which is abstract here, and the constructor uses the same call for the initial visibility.
- The area helper's `fullName`, `localName` and `isVisible` are unspecified functions.
- Chaining is not modelled: the `return api` of each closure has no result.
- Visibility values, tracking properties and events are booleans and strings. JavaScript would accept any value there, with its truthiness and its strict equality. The object keys `visibilityByArea` inherits from `Object.prototype` are not modelled.
- Visibility.Handler.UpdateAreaVisibility: its argument is a sequence of (name, visibility) pairs in the order of `Object.keys`. `UpdateValues`, `UpdateRequests` and `RepeatedUpdatePublishesNothing` assume distinct names, as the keys of an object are.
- The status of an exception thrown by a listener is not modelled. Neither is a listener that re-enters the handler.
- `lib/utilities/object.js` is not part of this model. The object utilities follow what their test suite asserts, plus two choices:
  - An array index is a canonical decimal string: digits with no leading zero.
  - Named properties of arrays, `length` and prototype properties are not represented.
- ObjectUtils.SetPath: it returns the new root value instead of changing its argument in place, so aliasing between the root and other references is not modelled. Writing below a primitive root gives `Err(NotAnObject)`, where JavaScript throws. A named key on an array gives `Err(ArrayProperty)`.
- ObjectUtils.ForEach: the order of an object's entries is left open, because `map` has no order. An array's elements are visited in index order. Calling it on a non-container is not covered, since the tests do not exercise it.
- ObjectUtils.Options: only object, `null` and `undefined` options are covered, as in the tests. The copying is not separate, because values cannot be shared.
- ObjectUtils.DeepClone: values are immutable, so the clone is the equal value itself, and the independence of clone and original holds by construction. Values outside the datatype, such as functions, dates or cyclic structures, are not modelled.
- Numbers are integers. `NaN`, floating point and number-to-string conversion are not modelled.
- `lib/runtime/services.js` and `webpack.config.js` are wiring and build configuration, and are not part of this model.
