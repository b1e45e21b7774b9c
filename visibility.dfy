/**
 * The per-widget visibility handler (`create(context, areaHelper)`): it
 * tracks whether its widget is visible, notifies show/hide listeners,
 * mirrors the state onto a context property, asks the event bus to change the
 * visibility of the widget's own areas and answers the bus's questions about
 * them.
 */
module Visibility {
  import opened Wrappers
  import opened Dotted
  import opened EventBus

  // ----- topics --------------------------------------------------------------

  const CHANGE_AREA_REQUEST := "changeAreaVisibilityRequest"
  const DID_CHANGE_AREA := "didChangeAreaVisibility"
  const CHANGE_WIDGET_REQUEST := "changeWidgetVisibilityRequest"

  /** A boolean as template interpolation writes it. */
  function BoolText(b: bool): string
  {
    if b then "true" else "false"
  }

  /** `${prefix}.${name}.${visible}`. */
  function Topic(prefix: string, name: string, visible: bool): string
  {
    prefix + "." + name + "." + BoolText(visible)
  }

  /** Reads back the name part and the boolean of a topic whose last segment is 'true' or 'false'. */
  function ParseTopic(topic: string): Option<(string, bool)>
  {
    var segs := Split(topic);
    var last := segs[|segs| - 1];
    if |segs| >= 2 && (last == "true" || last == "false") then Some((Join(segs[..|segs| - 1]), last == "true"))
    else None
  }

  /** A topic is the segments of `prefix.name` followed by one boolean segment. */
  lemma TopicSegments(prefix: string, name: string, visible: bool)
    ensures Split(Topic(prefix, name, visible)) == Split(prefix + "." + name) + [BoolText(visible)]
  {
    SplitAppend(prefix + "." + name, BoolText(visible));
    SplitNoDot(BoolText(visible));
  }

  lemma TopicRoundTrip(prefix: string, name: string, visible: bool)
    ensures ParseTopic(Topic(prefix, name, visible)) == Some((prefix + "." + name, visible))
  {
    var head := prefix + "." + name;
    TopicSegments(prefix, name, visible);
    var segs := Split(head) + [BoolText(visible)];
    assert segs[..|segs| - 1] == Split(head);
    JoinSplit(head);
  }

  /** Distinct names or values give distinct topics under one prefix. */
  lemma TopicInjective(prefix: string, name1: string, visible1: bool, name2: string, visible2: bool)
    requires Topic(prefix, name1, visible1) == Topic(prefix, name2, visible2)
    ensures name1 == name2 && visible1 == visible2
  {
    TopicRoundTrip(prefix, name1, visible1);
    TopicRoundTrip(prefix, name2, visible2);
    var n := |prefix| + 1;
    assert (prefix + "." + name1)[n..] == name1;
    assert (prefix + "." + name2)[n..] == name2;
  }

  // ----- the area rule -------------------------------------------------------

  /** What `isAreaVisible` can return: `undefined` or a boolean. */
  datatype JsValue = Undefined | Boolean(value: bool)

  predicate Truthy(v: JsValue)
  {
    v == Boolean(true)
  }

  /** JavaScript's `a && b`. */
  function JsAnd(a: JsValue, b: JsValue): JsValue
  {
    if Truthy(a) then b else a
  }

  /** JavaScript's `a || b`. */
  function JsOr(a: JsValue, b: JsValue): JsValue
  {
    if Truthy(a) then a else b
  }

  /**
   * The visibility rule for one area: an area without a recorded visibility
   * follows its container; otherwise it is shown when its recorded visibility
   * is true and the container is visible or the area overrides it.
   */
  ghost predicate Shown(visibilityByArea: map<string, bool>, overrideByArea: set<string>, name: string, containerVisible: bool)
  {
    if name in visibilityByArea then visibilityByArea[name] && (containerVisible || name in overrideByArea)
    else containerVisible
  }

  /**
   * `isAreaVisible(localAreaName, containerVisible)`, evaluated with
   * JavaScript's `&&` and `||`. Its truthiness is the rule Shown; it is
   * `undefined`, not `false`, for a recorded `true` under a hidden container
   * without an override.
   */
  function AreaVisibility(visibilityByArea: map<string, bool>, overrideByArea: set<string>,
                          localAreaName: string, containerVisible: bool): (r: JsValue)
    ensures localAreaName !in visibilityByArea ==> r == Boolean(containerVisible)
    ensures Truthy(r) <==> Shown(visibilityByArea, overrideByArea, localAreaName, containerVisible)
    ensures r.Undefined? <==>
      localAreaName in visibilityByArea && visibilityByArea[localAreaName]
      && !containerVisible && localAreaName !in overrideByArea
    ensures localAreaName in visibilityByArea && !visibilityByArea[localAreaName] ==> r == Boolean(false)
    ensures localAreaName in visibilityByArea && visibilityByArea[localAreaName] && localAreaName in overrideByArea ==>
      r == Boolean(true)
  {
    if localAreaName !in visibilityByArea then Boolean(containerVisible)
    else
      var areaVisible := Boolean(visibilityByArea[localAreaName]);
      var areaOverride := if localAreaName in overrideByArea then Boolean(true) else Undefined;
      JsAnd(areaVisible, JsOr(Boolean(containerVisible), areaOverride))
  }

  // ----- updateAreaVisibility, as a function of the state ---------------------

  /** The per-area part of the handler's state. */
  datatype AreaState = AreaState(visibilityByArea: map<string, bool>, overrideByArea: set<string>)

  /** One area of `updateAreaVisibility`: the new state and whether a request is published. */
  function ApplyEntry(s: AreaState, name: string, visible: bool, overrideContainer: bool): (AreaState, bool)
  {
    var oldVisible := if name in s.visibilityByArea then Some(s.visibilityByArea[name]) else None;
    var oldOverride := name in s.overrideByArea;
    var overrides :=
      if overrideContainer then s.overrideByArea + {name}
      else if oldOverride then s.overrideByArea - {name}
      else s.overrideByArea;
    (AreaState(s.visibilityByArea[name := visible], overrides),
     oldVisible != Some(visible) || oldOverride != (name in overrides))
  }

  /** The resulting state and the (local name, visibility) of each request published, in order. */
  datatype AreaUpdate = AreaUpdate(state: AreaState, requests: seq<(string, bool)>)

  function ApplyEntries(s: AreaState, entries: seq<(string, bool)>, overrideContainer: bool): AreaUpdate
    decreases |entries|
  {
    if |entries| == 0 then AreaUpdate(s, [])
    else
      var previous := ApplyEntries(s, entries[..|entries| - 1], overrideContainer);
      var entry := entries[|entries| - 1];
      var step := ApplyEntry(previous.state, entry.0, entry.1, overrideContainer);
      AreaUpdate(step.0, previous.requests + if step.1 then [entry] else [])
  }

  /** One iteration of the loop of `updateAreaVisibility`, against ApplyEntries and RequestMessages. */
  lemma AreaLoopStep(s: AreaState, entries: seq<(string, bool)>, i: nat, overrideContainer: bool,
                     fullName: string -> string, previous: AreaUpdate,
                     outbox0: seq<Message>, outbox: seq<Message>, next: AreaState, changed: bool, outbox': seq<Message>)
    requires i < |entries|
    requires previous == ApplyEntries(s, entries[..i], overrideContainer)
    requires outbox == outbox0 + RequestMessages(fullName, previous.requests)
    requires (next, changed) == ApplyEntry(previous.state, entries[i].0, entries[i].1, overrideContainer)
    requires outbox' == outbox + if changed then [AreaRequest(fullName(entries[i].0), entries[i].1)] else []
    ensures ApplyEntries(s, entries[..i + 1], overrideContainer) ==
      AreaUpdate(next, previous.requests + if changed then [entries[i]] else [])
    ensures outbox' == outbox0 + RequestMessages(fullName, previous.requests + if changed then [entries[i]] else [])
  {
    UpdateStep(s, entries, i, overrideContainer, previous, next, changed);
    RequestMessagesStep(fullName, previous.requests, entries[i], changed);
    AppendAssociative(outbox0, RequestMessages(fullName, previous.requests),
                      if changed then [AreaRequest(fullName(entries[i].0), entries[i].1)] else []);
  }

  /** One more entry: the definition of ApplyEntries unfolded at a prefix. */
  lemma UpdateStep(s: AreaState, entries: seq<(string, bool)>, i: nat, overrideContainer: bool,
                   previous: AreaUpdate, next: AreaState, changed: bool)
    requires i < |entries|
    requires previous == ApplyEntries(s, entries[..i], overrideContainer)
    requires (next, changed) == ApplyEntry(previous.state, entries[i].0, entries[i].1, overrideContainer)
    ensures ApplyEntries(s, entries[..i + 1], overrideContainer) ==
      AreaUpdate(next, previous.requests + if changed then [entries[i]] else [])
  {
    assert entries[..i + 1][..i] == entries[..i];
  }

  ghost predicate Mentions(entries: seq<(string, bool)>, name: string)
  {
    exists i :: 0 <= i < |entries| && entries[i].0 == name
  }

  /** No area is named twice (the keys of a JavaScript object). */
  ghost predicate DistinctNames(entries: seq<(string, bool)>)
  {
    forall i, j :: 0 <= i < j < |entries| ==> entries[i].0 != entries[j].0
  }

  /**
   * The override flag after `updateAreaVisibility(m, { overrideContainer })`:
   * set on every area of m when overrideContainer is true, cleared on every
   * area of m otherwise; areas not in m keep their visibility and override.
   */
  lemma {:induction false} UpdateOverrides(s: AreaState, entries: seq<(string, bool)>, overrideContainer: bool, name: string)
    ensures var t := ApplyEntries(s, entries, overrideContainer).state;
      && (Mentions(entries, name) ==> name in t.visibilityByArea && (name in t.overrideByArea <==> overrideContainer))
      && (!Mentions(entries, name) ==>
            (name in t.overrideByArea <==> name in s.overrideByArea)
            && (name in t.visibilityByArea <==> name in s.visibilityByArea)
            && (name in s.visibilityByArea ==> t.visibilityByArea[name] == s.visibilityByArea[name]))
    decreases |entries|
  {
    if |entries| > 0 {
      var init := entries[..|entries| - 1];
      var entry := entries[|entries| - 1];
      UpdateOverrides(s, init, overrideContainer, name);
      if Mentions(entries, name) && entry.0 != name {
        var i :| 0 <= i < |entries| && entries[i].0 == name;
        assert init[i].0 == name;
      }
      if Mentions(init, name) {
        var i :| 0 <= i < |init| && init[i].0 == name;
        assert entries[i].0 == name;
      }
    }
  }

  /** With distinct names, each area of m ends with the visibility m gives it. */
  lemma {:induction false} UpdateValues(s: AreaState, entries: seq<(string, bool)>, overrideContainer: bool, i: nat)
    requires DistinctNames(entries) && i < |entries|
    ensures var t := ApplyEntries(s, entries, overrideContainer).state;
      entries[i].0 in t.visibilityByArea && t.visibilityByArea[entries[i].0] == entries[i].1
    decreases |entries|
  {
    var init := entries[..|entries| - 1];
    if i < |entries| - 1 {
      assert DistinctNames(init);
      assert init[i] == entries[i];
      UpdateValues(s, init, overrideContainer, i);
    }
  }

  /** The change-detection rule, stated against the state before the call. */
  ghost predicate Changed(s: AreaState, entry: (string, bool), overrideContainer: bool)
  {
    (entry.0 !in s.visibilityByArea || s.visibilityByArea[entry.0] != entry.1)
    || ((entry.0 in s.overrideByArea) != overrideContainer)
  }

  /** The entries of m whose visibility or override differs from the state before the call. */
  ghost function ChangedEntries(s: AreaState, entries: seq<(string, bool)>, overrideContainer: bool): seq<(string, bool)>
    decreases |entries|
  {
    if |entries| == 0 then []
    else
      var entry := entries[|entries| - 1];
      ChangedEntries(s, entries[..|entries| - 1], overrideContainer) + if Changed(s, entry, overrideContainer) then [entry] else []
  }

  /**
   * `updateAreaVisibility` publishes one request per area whose visibility or
   * override changed, in the order of m, and none for the others.
   */
  lemma {:induction false} UpdateRequests(s: AreaState, entries: seq<(string, bool)>, overrideContainer: bool)
    requires DistinctNames(entries)
    ensures ApplyEntries(s, entries, overrideContainer).requests == ChangedEntries(s, entries, overrideContainer)
    decreases |entries|
  {
    if |entries| > 0 {
      var init := entries[..|entries| - 1];
      var entry := entries[|entries| - 1];
      assert DistinctNames(init);
      UpdateRequests(s, init, overrideContainer);
      forall i | 0 <= i < |init| ensures init[i].0 != entry.0 {
        assert init[i] == entries[i];
      }
      assert !Mentions(init, entry.0);
      UpdateOverrides(s, init, overrideContainer, entry.0);
    }
  }

  /** An update that changes nothing publishes nothing and leaves the state as it was. */
  lemma {:induction false} UnchangedPublishesNothing(s: AreaState, entries: seq<(string, bool)>, overrideContainer: bool)
    requires forall i :: 0 <= i < |entries| ==> !Changed(s, entries[i], overrideContainer)
    ensures ApplyEntries(s, entries, overrideContainer) == AreaUpdate(s, [])
    decreases |entries|
  {
    if |entries| > 0 {
      var init := entries[..|entries| - 1];
      var entry := entries[|entries| - 1];
      assert forall i :: 0 <= i < |init| ==> init[i] == entries[i];
      UnchangedPublishesNothing(s, init, overrideContainer);
      assert !Changed(s, entry, overrideContainer);
      assert s.visibilityByArea[entry.0 := entry.1] == s.visibilityByArea;
    }
  }

  /** Repeating an update publishes nothing the second time and changes no state. */
  lemma RepeatedUpdatePublishesNothing(s: AreaState, entries: seq<(string, bool)>, overrideContainer: bool)
    requires DistinctNames(entries)
    ensures var t := ApplyEntries(s, entries, overrideContainer).state;
      ApplyEntries(t, entries, overrideContainer) == AreaUpdate(t, [])
  {
    var t := ApplyEntries(s, entries, overrideContainer).state;
    forall i | 0 <= i < |entries| ensures !Changed(t, entries[i], overrideContainer) {
      UpdateValues(s, entries, overrideContainer, i);
      UpdateOverrides(s, entries, overrideContainer, entries[i].0);
    }
    UnchangedPublishesNothing(t, entries, overrideContainer);
  }

  /** The request published for one area. */
  function AreaRequest(area: string, visible: bool): Message
  {
    Message(Request, Topic(CHANGE_AREA_REQUEST, area, visible), AreaChange(area, visible), false)
  }

  /** The requests of an update, with local area names qualified by `fullName`. */
  function RequestMessages(fullName: string -> string, requests: seq<(string, bool)>): (r: seq<Message>)
    ensures |r| == |requests|
    ensures forall i :: 0 <= i < |r| ==> r[i] == AreaRequest(fullName(requests[i].0), requests[i].1)
    decreases |requests|
  {
    if |requests| == 0 then []
    else
      var last := requests[|requests| - 1];
      RequestMessages(fullName, requests[..|requests| - 1]) + [AreaRequest(fullName(last.0), last.1)]
  }

  lemma RequestMessagesStep(fullName: string -> string, requests: seq<(string, bool)>, last: (string, bool), changed: bool)
    ensures RequestMessages(fullName, requests + if changed then [last] else []) ==
      RequestMessages(fullName, requests) + if changed then [AreaRequest(fullName(last.0), last.1)] else []
  {
    if changed {
      assert (requests + [last])[..|requests|] == requests;
    } else {
      assert requests + [] == requests;
    }
  }

  // ----- listeners -----------------------------------------------------------

  /** A callback, compared by identity. */
  type Listener = nat

  /** One call `listener(visible)`. */
  datatype Invocation = Invocation(listener: Listener, visible: bool)

  /** The calls made by `listeners.forEach(f => f(visible))`. */
  function Calls(listeners: seq<Listener>, visible: bool): (r: seq<Invocation>)
    ensures |r| == |listeners|
    ensures forall i :: 0 <= i < |r| ==> r[i] == Invocation(listeners[i], visible)
  {
    seq(|listeners|, i requires 0 <= i < |listeners| => Invocation(listeners[i], visible))
  }

  /** The list with every occurrence of `cb` taken out. */
  function Without(s: seq<Listener>, cb: Listener): seq<Listener>
    decreases |s|
  {
    if |s| == 0 then []
    else (if s[0] == cb then [] else [s[0]]) + Without(s[1..], cb)
  }

  lemma {:induction false} WithoutAppend(a: seq<Listener>, b: seq<Listener>, cb: Listener)
    ensures Without(a + b, cb) == Without(a, cb) + Without(b, cb)
    decreases |a|
  {
    if |a| == 0 {
      assert a + b == b;
    } else {
      assert (a + b)[0] == a[0];
      assert (a + b)[1..] == a[1..] + b;
      WithoutAppend(a[1..], b, cb);
    }
  }

  lemma {:induction false} WithoutAbsent(s: seq<Listener>, cb: Listener)
    requires cb !in s
    ensures Without(s, cb) == s
    decreases |s|
  {
    if |s| > 0 {
      assert cb !in s[1..];
      WithoutAbsent(s[1..], cb);
    }
  }

  /**
   * Removing every occurrence: `cb` is gone, every other listener keeps its
   * number of occurrences, and the remaining order is the original order.
   */
  lemma {:induction false} WithoutRemovesEveryOccurrence(s: seq<Listener>, cb: Listener)
    ensures cb !in Without(s, cb)
    ensures multiset(Without(s, cb)) == multiset(s)[cb := 0]
    decreases |s|
  {
    if |s| > 0 {
      WithoutRemovesEveryOccurrence(s[1..], cb);
      assert s == [s[0]] + s[1..];
      assert multiset(s) == multiset([s[0]]) + multiset(s[1..]);
    }
  }

  /** Splicing out one occurrence of `cb` does not change what removing all of them gives. */
  lemma WithoutSplice(s: seq<Listener>, index: nat, cb: Listener)
    requires index < |s| && s[index] == cb
    ensures Without(s[..index] + s[index + 1..], cb) == Without(s, cb)
  {
    assert s == s[..index] + ([s[index]] + s[index + 1..]);
    WithoutAppend(s[..index], [s[index]] + s[index + 1..], cb);
    WithoutAppend([s[index]], s[index + 1..], cb);
    WithoutAppend(s[..index], s[index + 1..], cb);
    assert Without([cb], cb) == [] by { assert [cb][1..] == []; }
  }

  /** `array.indexOf(callback)`: the first position of `cb`, or -1. */
  method IndexOf(s: seq<Listener>, cb: Listener) returns (index: int)
    ensures -1 <= index < |s|
    ensures index == -1 <==> cb !in s
    ensures 0 <= index ==> s[index] == cb && cb !in s[..index]
  {
    index := 0;
    while index < |s|
      invariant 0 <= index <= |s|
      invariant cb !in s[..index]
    {
      if s[index] == cb {
        return;
      }
      index := index + 1;
    }
    assert s[..index] == s;
    index := -1;
  }

  /** The `remove` helper of `unsubscribe`: find, splice, repeat until not found. */
  method RemoveAll(s: seq<Listener>, cb: Listener) returns (r: seq<Listener>)
    ensures r == Without(s, cb)
    decreases |s|
  {
    var index := IndexOf(s, cb);
    if index == -1 {
      WithoutAbsent(s, cb);
      return s;
    }
    WithoutSplice(s, index, cb);
    r := RemoveAll(s[..index] + s[index + 1..], cb);
  }

  // ----- the handler ---------------------------------------------------------

  /** The area helper: qualifies and unqualifies area names and reports visibility; left abstract. */
  datatype AreaHelper = AreaHelper(fullName: string -> string, localName: string -> string, isVisible: string -> bool)

  class Handler {
    /** `context.eventBus`. */
    const bus: Bus
    /** `context.widget.id` and `context.widget.area`. */
    const widgetId: string
    const widgetArea: string
    const areas: AreaHelper

    var isVisible: bool
    /** None stands for both `undefined` and `null`. */
    var trackingProperty: Option<string>
    /** The boolean properties this handler has written on the widget context. */
    var contextFlags: map<string, bool>
    var showListeners: seq<Listener>
    var hideListeners: seq<Listener>
    /** The handle of the didChangeAreaVisibility subscription; None is `noOp`. */
    var changeSubscription: Option<nat>
    /** Every listener call made so far, in order. */
    var invocations: seq<Invocation>

    var visibilityByArea: map<string, bool>
    /** The areas whose override flag is set (the source stores only `true`). */
    var overrideByArea: set<string>
    /** The handle of the changeAreaVisibilityRequest subscription; None is `noOp`. */
    var areaRequestSubscription: Option<nat>

    function ChangeTopic(): string
    {
      DID_CHANGE_AREA + "." + widgetArea
    }

    function AreaRequestTopic(): string
    {
      CHANGE_AREA_REQUEST + "." + widgetId
    }

    /** Each handle held names a subscription of this handler's own closure. */
    ghost predicate Valid()
      reads this, bus
    {
      && bus.Valid()
      && (changeSubscription.Some? ==>
            changeSubscription.value < |bus.subscriptions|
            && bus.subscriptions[changeSubscription.value] == Subscription(ChangeTopic(), ChangeHandler(widgetId)))
      && (areaRequestSubscription.Some? ==>
            areaRequestSubscription.value < |bus.subscriptions|
            && bus.subscriptions[areaRequestSubscription.value] == Subscription(AreaRequestTopic(), AreaResponder(widgetId)))
    }

    /** The initial `isVisible` is what the area helper reports for the widget's area. */
    constructor (bus: Bus, widgetId: string, widgetArea: string, areas: AreaHelper)
      requires bus.Valid()
      ensures Valid()
      ensures this.bus == bus && this.widgetId == widgetId && this.widgetArea == widgetArea && this.areas == areas
      ensures isVisible == areas.isVisible(widgetArea)
      ensures trackingProperty == None && contextFlags == map[] && invocations == []
      ensures showListeners == [] && hideListeners == [] && changeSubscription == None
      ensures visibilityByArea == map[] && overrideByArea == {} && areaRequestSubscription == None
    {
      this.bus := bus;
      this.widgetId := widgetId;
      this.widgetArea := widgetArea;
      this.areas := areas;
      isVisible := areas.isVisible(widgetArea);
      trackingProperty := None;
      contextFlags := map[];
      showListeners := [];
      hideListeners := [];
      changeSubscription := None;
      invocations := [];
      visibilityByArea := map[];
      overrideByArea := {};
      areaRequestSubscription := None;
    }

    /** The tracking property is set to a truthy name. */
    predicate Tracking()
      reads this
    {
      trackingProperty.Some? && trackingProperty.value != ""
    }

    /** `trackingProperty || (showListeners.length + hideListeners.length)`, as a boolean. */
    predicate NeedsSubscription()
      reads this
    {
      Tracking() || |showListeners| + |hideListeners| > 0
    }

    /**
     * The outcome of `updateChangeSubscription` from a handle `s0` and bus
     * state `subs0`/`active0`: a subscription is created when one is needed
     * and none is held, kept when one is needed and held, and cancelled and
     * dropped when none is needed.
     */
    ghost predicate ChangeSubscriptionEvaluated(s0: Option<nat>, subs0: seq<Subscription>, active0: set<nat>)
      reads this, bus
    {
      && (NeedsSubscription() && s0.Some? ==>
            changeSubscription == s0 && bus.subscriptions == subs0 && bus.active == active0)
      && (NeedsSubscription() && s0.None? ==>
            changeSubscription == Some(|subs0|)
            && bus.subscriptions == subs0 + [Subscription(ChangeTopic(), ChangeHandler(widgetId))]
            && bus.active == active0 + {|subs0|})
      && (!NeedsSubscription() ==>
            changeSubscription == None && bus.subscriptions == subs0
            && bus.active == active0 - (if s0.Some? then {s0.value} else {}))
    }

    method UpdateChangeSubscription()
      requires Valid()
      modifies this`changeSubscription, bus`subscriptions, bus`active
      ensures Valid()
      ensures ChangeSubscriptionEvaluated(old(changeSubscription), old(bus.subscriptions), old(bus.active))
    {
      var needsSubscription := NeedsSubscription();
      if needsSubscription && changeSubscription.None? {
        var id := bus.Subscribe(ChangeTopic(), ChangeHandler(widgetId));
        changeSubscription := Some(id);
      } else if !needsSubscription {
        if changeSubscription.Some? {
          bus.Unsubscribe(changeSubscription.value);
        }
        changeSubscription := None;
      }
    }

    /** `onHide(callback)`. */
    method OnHide(cb: Listener)
      requires Valid()
      modifies this`hideListeners, this`changeSubscription, bus`subscriptions, bus`active
      ensures Valid()
      ensures hideListeners == old(hideListeners) + [cb]
      ensures changeSubscription.Some?
      ensures ChangeSubscriptionEvaluated(old(changeSubscription), old(bus.subscriptions), old(bus.active))
    {
      hideListeners := hideListeners + [cb];
      UpdateChangeSubscription();
    }

    /** `onShow(callback)`. */
    method OnShow(cb: Listener)
      requires Valid()
      modifies this`showListeners, this`changeSubscription, bus`subscriptions, bus`active
      ensures Valid()
      ensures showListeners == old(showListeners) + [cb]
      ensures changeSubscription.Some?
      ensures ChangeSubscriptionEvaluated(old(changeSubscription), old(bus.subscriptions), old(bus.active))
    {
      showListeners := showListeners + [cb];
      UpdateChangeSubscription();
    }

    /** `onChange(callback)`: registers the callback as both a show and a hide listener. */
    method OnChange(cb: Listener)
      requires Valid()
      modifies this`showListeners, this`hideListeners, this`changeSubscription, bus`subscriptions, bus`active
      ensures Valid()
      ensures showListeners == old(showListeners) + [cb]
      ensures hideListeners == old(hideListeners) + [cb]
      ensures changeSubscription.Some?
      ensures ChangeSubscriptionEvaluated(old(changeSubscription), old(bus.subscriptions), old(bus.active))
    {
      showListeners := showListeners + [cb];
      hideListeners := hideListeners + [cb];
      UpdateChangeSubscription();
    }

    /**
     * `track(property = 'isVisible')`: a non-null property is set on the
     * context to the current visibility at once; None passes `null`.
     */
    method Track(property: Option<string> := Some("isVisible"))
      requires Valid()
      modifies this`trackingProperty, this`contextFlags, this`changeSubscription, bus`subscriptions, bus`active
      ensures Valid()
      ensures trackingProperty == property
      ensures contextFlags == if property.Some? then old(contextFlags)[property.value := isVisible] else old(contextFlags)
      ensures ChangeSubscriptionEvaluated(old(changeSubscription), old(bus.subscriptions), old(bus.active))
    {
      trackingProperty := property;
      if property.Some? {
        contextFlags := contextFlags[property.value := isVisible];
      }
      UpdateChangeSubscription();
    }

    /**
     * `unsubscribe(callback)`: every occurrence leaves both lists; the change
     * subscription is not re-evaluated.
     */
    method Unsubscribe(cb: Listener)
      modifies this`showListeners, this`hideListeners
      ensures showListeners == Without(old(showListeners), cb)
      ensures hideListeners == Without(old(hideListeners), cb)
    {
      showListeners := RemoveAll(showListeners, cb);
      hideListeners := RemoveAll(hideListeners, cb);
    }

    /** The subscription handles held (the `noOp` ones are not handles). */
    ghost function Handles(): set<nat>
      reads this
    {
      (if changeSubscription.Some? then {changeSubscription.value} else {})
      + (if areaRequestSubscription.Some? then {areaRequestSubscription.value} else {})
    }

    /** `release()`: cancels both subscriptions; the handles are kept, so calling it again changes nothing. */
    method Release()
      requires Valid()
      modifies bus`active
      ensures Valid()
      ensures bus.active == old(bus.active) - Handles()
    {
      if areaRequestSubscription.Some? {
        bus.Unsubscribe(areaRequestSubscription.value);
      }
      if changeSubscription.Some? {
        bus.Unsubscribe(changeSubscription.value);
      }
    }

    /** Records the calls of `listeners.forEach(f => f(visible))`. */
    method Notify(listeners: seq<Listener>, visible: bool)
      modifies this`invocations
      ensures invocations == old(invocations) + Calls(listeners, visible)
    {
      for i := 0 to |listeners|
        invariant invocations == old(invocations) + Calls(listeners[..i], visible)
      {
        assert Calls(listeners[..i + 1], visible) == Calls(listeners[..i], visible) + [Invocation(listeners[i], visible)];
        invocations := invocations + [Invocation(listeners[i], visible)];
      }
      assert listeners[..|listeners|] == listeners;
    }

    /**
     * The didChangeAreaVisibility subscriber, run by the bus while that
     * subscription is active: a non-transition is ignored; a transition sets
     * `isVisible`, the tracking property, and calls only the show listeners
     * (becoming visible) or only the hide listeners (becoming hidden).
     */
    method HandleChange(visible: bool)
      requires Valid()
      requires changeSubscription.Some? && changeSubscription.value in bus.active
      modifies this`isVisible, this`contextFlags, this`invocations
      ensures visible == old(isVisible) ==>
        isVisible == old(isVisible) && contextFlags == old(contextFlags) && invocations == old(invocations)
      ensures visible != old(isVisible) ==>
        && isVisible == visible
        && contextFlags == (if Tracking() then old(contextFlags)[trackingProperty.value := visible] else old(contextFlags))
        && invocations == old(invocations) + Calls(if visible then showListeners else hideListeners, visible)
    {
      if visible == isVisible {
        return;
      }
      isVisible := visible;
      if Tracking() {
        contextFlags := contextFlags[trackingProperty.value := visible];
      }
      Notify(if visible then showListeners else hideListeners, visible);
    }

    /** The loop body of `updateAreaVisibility` for one area; returns whether it changed. */
    method ApplyArea(name: string, visible: bool, overrideContainer: bool) returns (changed: bool)
      modifies this`visibilityByArea, this`overrideByArea
      ensures (AreaState(visibilityByArea, overrideByArea), changed) ==
        ApplyEntry(AreaState(old(visibilityByArea), old(overrideByArea)), name, visible, overrideContainer)
    {
      var oldVisible := if name in visibilityByArea then Some(visibilityByArea[name]) else None;
      var oldOverride := name in overrideByArea;
      visibilityByArea := visibilityByArea[name := visible];
      if overrideContainer {
        overrideByArea := overrideByArea + {name};
      } else if oldOverride {
        overrideByArea := overrideByArea - {name};
      }
      changed := oldVisible != Some(visible) || oldOverride != (name in overrideByArea);
    }

    /** One area of `updateAreaVisibility`, including the request sent when it changed. */
    method UpdateArea(name: string, visible: bool, overrideContainer: bool) returns (changed: bool)
      modifies this`visibilityByArea, this`overrideByArea, bus`outbox
      ensures (AreaState(visibilityByArea, overrideByArea), changed) ==
        ApplyEntry(AreaState(old(visibilityByArea), old(overrideByArea)), name, visible, overrideContainer)
      ensures bus.outbox == old(bus.outbox) + if changed then [AreaRequest(areas.fullName(name), visible)] else []
    {
      changed := ApplyArea(name, visible, overrideContainer);
      if changed {
        var area := areas.fullName(name);
        bus.PublishAndGatherReplies(Topic(CHANGE_AREA_REQUEST, area, visible), AreaChange(area, visible), false);
      }
    }

    /** The loop of `updateAreaVisibility`: the state and the requests are those of ApplyEntries. */
    method UpdateAreas(entries: seq<(string, bool)>, overrideContainer: bool)
      modifies this`visibilityByArea, this`overrideByArea, bus`outbox
      ensures var u := ApplyEntries(AreaState(old(visibilityByArea), old(overrideByArea)), entries, overrideContainer);
        && AreaState(visibilityByArea, overrideByArea) == u.state
        && bus.outbox == old(bus.outbox) + RequestMessages(areas.fullName, u.requests)
    {
      ghost var s0 := AreaState(visibilityByArea, overrideByArea);
      ghost var update := AreaUpdate(s0, []);
      var i := 0;
      while i < |entries|
        invariant 0 <= i <= |entries|
        invariant update == ApplyEntries(s0, entries[..i], overrideContainer)
        invariant visibilityByArea == update.state.visibilityByArea && overrideByArea == update.state.overrideByArea
        invariant bus.outbox == old(bus.outbox) + RequestMessages(areas.fullName, update.requests)
      {
        ghost var before, outbox := update, bus.outbox;
        var changed := UpdateArea(entries[i].0, entries[i].1, overrideContainer);
        AreaLoopStep(s0, entries, i, overrideContainer, areas.fullName, before, old(bus.outbox), outbox,
                     AreaState(visibilityByArea, overrideByArea), changed, bus.outbox);
        update := AreaUpdate(AreaState(visibilityByArea, overrideByArea), before.requests + if changed then [entries[i]] else []);
        i := i + 1;
      }
      assert entries[..|entries|] == entries;
    }

    /**
     * `updateAreaVisibility(visibilityByLocalArea, { overrideContainer })`:
     * subscribes the responder on first use, records the new visibilities and
     * overrides, and sends one request per changed area.
     */
    method UpdateAreaVisibility(entries: seq<(string, bool)>, overrideContainer: bool := false)
      requires Valid()
      modifies this`visibilityByArea, this`overrideByArea, this`areaRequestSubscription, bus
      ensures Valid()
      ensures var u := ApplyEntries(AreaState(old(visibilityByArea), old(overrideByArea)), entries, overrideContainer);
        && visibilityByArea == u.state.visibilityByArea
        && overrideByArea == u.state.overrideByArea
        && bus.outbox == old(bus.outbox) + RequestMessages(areas.fullName, u.requests)
      ensures areaRequestSubscription.Some?
      ensures old(areaRequestSubscription).Some? ==>
        areaRequestSubscription == old(areaRequestSubscription)
        && bus.subscriptions == old(bus.subscriptions) && bus.active == old(bus.active)
      ensures old(areaRequestSubscription).None? ==>
        && areaRequestSubscription == Some(|old(bus.subscriptions)|)
        && bus.subscriptions == old(bus.subscriptions) + [Subscription(AreaRequestTopic(), AreaResponder(widgetId))]
        && bus.active == old(bus.active) + {|old(bus.subscriptions)|}
    {
      if areaRequestSubscription.None? {
        var id := bus.Subscribe(AreaRequestTopic(), AreaResponder(widgetId));
        areaRequestSubscription := Some(id);
      }
      UpdateAreas(entries, overrideContainer);
    }

    /** `updateWidgetVisibility(visible)`: a request to show or hide the whole widget. */
    method UpdateWidgetVisibility(visible: bool)
      requires Valid()
      modifies bus`outbox
      ensures Valid()
      ensures bus.outbox == old(bus.outbox) +
        [Message(Request, Topic(CHANGE_WIDGET_REQUEST, widgetId, visible), WidgetChange(widgetId, visible), false)]
    {
      bus.PublishAndGatherReplies(Topic(CHANGE_WIDGET_REQUEST, widgetId, visible), WidgetChange(widgetId, visible), false);
    }

    /**
     * The changeAreaVisibilityRequest subscriber, run by the bus while that
     * subscription is active: answers with a didChangeAreaVisibility fact only
     * when the area rule yields a strict boolean.
     */
    method Respond(area: string, containerVisible: bool)
      requires Valid()
      requires areaRequestSubscription.Some? && areaRequestSubscription.value in bus.active
      modifies bus`outbox
      ensures Valid()
      ensures var r := AreaVisibility(visibilityByArea, overrideByArea, areas.localName(area), containerVisible);
        bus.outbox == old(bus.outbox) +
          if r.Boolean? then [Message(Fact, Topic(DID_CHANGE_AREA, area, r.value), AreaChange(area, r.value), false)] else []
    {
      var visible := AreaVisibility(visibilityByArea, overrideByArea, areas.localName(area), containerVisible);
      if visible.Boolean? {
        bus.Publish(Topic(DID_CHANGE_AREA, area, visible.value), AreaChange(area, visible.value), false);
      }
    }
  }
}
