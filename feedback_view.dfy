/** The host-side panel provider: a single pending-request slot that a new
    request overwrites, and that a panel `submit` or `end`, or the request's
    own deadline, resolves. */
module FeedbackView {
  import opened FeedbackTypes

  /** Stands in for the identity of a request's `resolve` closure. The broker
      answers each request on the connection that sent it, so a connection id
      serves equally well. */
  type RequestId = nat

  datatype ViewState = Idle | Waiting

  /** Messages the provider posts to the panel. */
  datatype ViewMessage = ShowPrompt(prompt: string) | UpdateState(state: ViewState)

  /** Messages the panel posts to the provider. `Other` is any other `type`. */
  datatype PanelMessage = Submit(text: Option<string>, images: Option<seq<string>>) | End | Other(kind: string)

  /** One call of a request's `resolve`. */
  datatype Delivery = Delivery(id: RequestId, result: FeedbackResult)

  /** The result a resolving panel message delivers: the submitted text and
      images with missing fields defaulted, or the end sentinel whatever the
      panel holds. */
  function PanelResult(message: PanelMessage): (r: FeedbackResult)
    requires !message.Other?
    ensures message.End? ==> r == FeedbackResult(ConversationEnd, [])
    ensures message.Submit? ==> r.text == message.text.GetOr("") && r.images == message.images.GetOr([])
  {
    match message
    case Submit(text, images) => FeedbackResult(text.GetOr(""), images.GetOr([]))
    case End => FeedbackResult(ConversationEnd, [])
  }

  class FeedbackViewProvider {
    /** Whether the panel has been resolved (`_view` is set). */
    var viewAttached: bool
    /** `_pendingCallback`, by the identity of its request. */
    var pending: Option<RequestId>
    /** `_currentPrompt`. */
    var currentPrompt: Option<string>
    /** The next request's identity: every request gets a fresh one. */
    var nextId: RequestId
    /** Messages posted to the panel, oldest first. */
    var posted: seq<ViewMessage>
    /** Every `resolve` call so far, oldest first. */
    ghost var delivered: seq<Delivery>
    /** The requests a newer request replaced while they were pending. */
    ghost var superseded: set<RequestId>

    ghost function DeliveredIds(): set<RequestId>
      reads this
    {
      set k | 0 <= k < |delivered| :: delivered[k].id
    }

    /** Slot and prompt are set and cleared together; every request issued so
        far is exactly one of pending, answered once, or superseded and never
        answered. */
    ghost predicate Valid()
      reads this
    {
      && (pending.Some? <==> currentPrompt.Some?)
      && (pending.Some? ==> pending.value < nextId && pending.value !in superseded && pending.value !in DeliveredIds())
      && (forall k, l | 0 <= k < l < |delivered| :: delivered[k].id != delivered[l].id)
      && (forall k | 0 <= k < |delivered| :: delivered[k].id < nextId)
      && superseded !! DeliveredIds()
      && (forall id | id in superseded :: id < nextId)
      && (forall id: RequestId | id < nextId && id !in superseded && id !in DeliveredIds() :: pending == Some(id))
    }

    constructor ()
      ensures Valid() && !viewAttached && pending == None && currentPrompt == None
      ensures nextId == 0 && posted == [] && delivered == [] && superseded == {}
    {
      viewAttached := false;
      pending := None;
      currentPrompt := None;
      nextId := 0;
      posted := [];
      delivered := [];
      superseded := {};
    }

    /** `resolveWebviewView`: the panel now exists and can post messages. */
    method ResolveWebviewView()
      requires Valid()
      modifies this`viewAttached
      ensures Valid() && viewAttached
    {
      viewAttached := true;
    }

    /** `requestFeedback`: the new request becomes the pending one with its
        prompt, replacing (and orphaning) any request already pending. */
    method RequestFeedback(prompt: string) returns (id: RequestId)
      requires Valid()
      modifies this
      ensures Valid()
      ensures id == old(nextId) && nextId == id + 1
      ensures pending == Some(id) && currentPrompt == Some(prompt)
      ensures delivered == old(delivered)
      ensures superseded == old(superseded) + (if old(pending).Some? then {old(pending).value} else {})
      ensures posted == old(posted) + (if viewAttached then [ShowPrompt(prompt)] else [])
      ensures viewAttached == old(viewAttached)
    {
      id := nextId;
      if pending.Some? {
        superseded := superseded + {pending.value};
      }
      currentPrompt := Some(prompt);
      pending := Some(id);
      nextId := nextId + 1;
      if viewAttached {
        posted := posted + [ShowPrompt(prompt)];
      }
    }

    /** Calls the pending request's `resolve`, clears the slot and the prompt,
        and tells the panel it is idle. */
    method ResolvePending(result: FeedbackResult)
      requires Valid() && pending.Some?
      modifies this`pending, this`currentPrompt, this`posted, this`delivered
      ensures Valid() && pending == None && currentPrompt == None
      ensures delivered == old(delivered) + [Delivery(old(pending).value, result)]
      ensures posted == old(posted) + (if viewAttached then [UpdateState(Idle)] else [])
    {
      ghost var id := pending.value;
      delivered := delivered + [Delivery(id, result)];
      assert DeliveredIds() == old(DeliveredIds()) + {id} by {
        assert forall k | 0 <= k < |old(delivered)| :: delivered[k] == old(delivered)[k];
        assert delivered[|delivered| - 1].id == id;
      }
      pending := None;
      currentPrompt := None;
      if viewAttached {
        posted := posted + [UpdateState(Idle)];
      }
    }

    /** The panel's message handler: `submit` and `end` resolve the pending
        request if there is one; with nothing pending, or for any other
        message, nothing happens. */
    method OnDidReceiveMessage(message: PanelMessage)
      requires Valid() && viewAttached
      modifies this`pending, this`currentPrompt, this`posted, this`delivered
      ensures Valid()
      ensures old(pending).None? || message.Other? ==>
        && pending == old(pending) && currentPrompt == old(currentPrompt)
        && delivered == old(delivered) && posted == old(posted)
      ensures old(pending).Some? && !message.Other? ==>
        && pending == None && currentPrompt == None
        && delivered == old(delivered) + [Delivery(old(pending).value, PanelResult(message))]
        && posted == old(posted) + [UpdateState(Idle)]
    {
      if !message.Other? && pending.Some? {
        ResolvePending(PanelResult(message));
      }
    }

    /** The deadline timer of request `id`: it resolves the request fail-open
        only while that same request is still pending. */
    method OnTimer(id: RequestId)
      requires Valid()
      modifies this`pending, this`currentPrompt, this`posted, this`delivered
      ensures Valid()
      ensures old(pending) != Some(id) ==>
        && pending == old(pending) && currentPrompt == old(currentPrompt)
        && delivered == old(delivered) && posted == old(posted)
      ensures old(pending) == Some(id) ==>
        && pending == None && currentPrompt == None
        && delivered == old(delivered) + [Delivery(id, FailOpen)]
        && posted == old(posted) + (if viewAttached then [UpdateState(Idle)] else [])
    {
      if pending == Some(id) {
        ResolvePending(FailOpen);
      }
    }
  }

  /** A request superseded by a newer one is answered neither by the panel
      nor by its own timer; the newer one gets the single answer, and its own
      timer, firing later, changes nothing. */
  method SupersededRequestScenario() {
    var provider := new FeedbackViewProvider();
    provider.ResolveWebviewView();
    var first := provider.RequestFeedback("did X");
    var second := provider.RequestFeedback("did Y");
    provider.OnDidReceiveMessage(Submit(Some("fix X"), None));
    provider.OnTimer(first);
    provider.OnTimer(second);
    assert provider.delivered == [Delivery(second, FeedbackResult("fix X", []))];
    assert first in provider.superseded;
  }
}
