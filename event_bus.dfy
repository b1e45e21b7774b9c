/**
 * The event bus as the visibility handler sees it: a recorder of the
 * subscriptions made and cancelled and of the events published, in order.
 * Delivery, pattern matching, reply gathering and timeouts are not part of
 * this model.
 */
module EventBus {

  /** Which closure of which widget's visibility handler a subscription calls. */
  datatype Subscriber =
    | ChangeHandler(widget: string)   // reacts to didChangeAreaVisibility of the widget's own area
    | AreaResponder(widget: string)   // answers changeAreaVisibilityRequest for the widget's areas

  datatype Subscription = Subscription(topic: string, subscriber: Subscriber)

  /** The payloads the visibility handler publishes. */
  datatype Payload =
    | AreaChange(area: string, visible: bool)       // { area, visible }
    | WidgetChange(widget: string, visible: bool)   // { widget, visible }

  /** `publish` sends a fact; `publishAndGatherReplies` sends a request and waits for replies. */
  datatype Kind = Fact | Request

  datatype Message = Message(kind: Kind, topic: string, payload: Payload, deliverToSender: bool)

  class Bus {
    /** Every subscription ever made; a subscription's handle is its index. */
    var subscriptions: seq<Subscription>
    /** The handles not yet cancelled. */
    var active: set<nat>
    /** Every event published, in publishing order. */
    var outbox: seq<Message>

    ghost predicate Valid()
      reads this
    {
      forall id :: id in active ==> id < |subscriptions|
    }

    constructor ()
      ensures Valid()
      ensures subscriptions == [] && active == {} && outbox == []
    {
      subscriptions := [];
      active := {};
      outbox := [];
    }

    /** `subscribe(topic, callback)`: returns the handle that cancels it. */
    method Subscribe(topic: string, subscriber: Subscriber) returns (id: nat)
      requires Valid()
      modifies this`subscriptions, this`active
      ensures Valid()
      ensures id == |old(subscriptions)|
      ensures subscriptions == old(subscriptions) + [Subscription(topic, subscriber)]
      ensures active == old(active) + {id}
    {
      id := |subscriptions|;
      subscriptions := subscriptions + [Subscription(topic, subscriber)];
      active := active + {id};
    }

    /** Calling the function `subscribe` returned; a second call has no effect. */
    method Unsubscribe(id: nat)
      requires Valid()
      modifies this`active
      ensures Valid()
      ensures active == old(active) - {id}
    {
      active := active - {id};
    }

    /** `publish(topic, payload, { deliverToSender })`. */
    method Publish(topic: string, payload: Payload, deliverToSender: bool)
      modifies this`outbox
      ensures outbox == old(outbox) + [Message(Fact, topic, payload, deliverToSender)]
    {
      outbox := outbox + [Message(Fact, topic, payload, deliverToSender)];
    }

    /** `publishAndGatherReplies(topic, payload, { deliverToSender })`; the replies are not modelled. */
    method PublishAndGatherReplies(topic: string, payload: Payload, deliverToSender: bool)
      modifies this`outbox
      ensures outbox == old(outbox) + [Message(Request, topic, payload, deliverToSender)]
    {
      outbox := outbox + [Message(Request, topic, payload, deliverToSender)];
    }
  }
}
