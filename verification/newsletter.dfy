/** The newsletter handlers of controllers/newsletter.js: a subscriber list
    that rejects an email already on it. The Newsletter schema itself
    (models/newsletter.js) is not part of this model; a subscriber is taken
    to be its email and creation time. */
module Newsletter {
  import opened Base

  datatype Subscriber = Subscriber(email: string, createdAt: int)

  /** The body of `getAllSubscribers`: the subscribers and their count. */
  datatype SubscriberList = SubscriberList(count: nat, data: seq<Subscriber>)

  /** The subscribed emails. */
  function Emails(subscribers: seq<Subscriber>): (r: set<string>)
    ensures forall e :: e in r <==> exists k :: 0 <= k < |subscribers| && subscribers[k].email == e
  {
    if subscribers == [] then {}
    else
      var rest := Emails(subscribers[1..]);
      assert forall k :: 1 <= k < |subscribers| ==> subscribers[k] == subscribers[1..][k - 1];
      {subscribers[0].email} + rest
  }

  lemma EmailsAppend(subscribers: seq<Subscriber>, s: Subscriber)
    ensures Emails(subscribers + [s]) == Emails(subscribers) + {s.email}
  {
    var after := subscribers + [s];
    forall e | e in Emails(subscribers) ensures e in Emails(after) {
      var k :| 0 <= k < |subscribers| && subscribers[k].email == e;
      assert after[k] == subscribers[k];
    }
    assert after[|subscribers|] == s;
  }

  function ByEmail(subscribers: seq<Subscriber>, email: string): Option<nat> {
    FirstIndex(subscribers, (s: Subscriber) => s.email == email)
  }

  /** `getAllSubscribers`: every subscriber, with `count` the number
      returned. */
  function AllSubscribers(subscribers: seq<Subscriber>): (r: Response<SubscriberList>)
    ensures r.status == 200 && r.data.Some?
    ensures r.data.value.count == |r.data.value.data|
    ensures r.data.value.data == subscribers
  {
    Response(200, "", Some(SubscriberList(|subscribers|, subscribers)))
  }

  /** The subscriber collection. */
  class NewsletterStore {
    var subscribers: seq<Subscriber>

    /** No email is subscribed twice. */
    ghost predicate Valid()
      reads this
    {
      forall i, j :: 0 <= i < j < |subscribers| ==> subscribers[i].email != subscribers[j].email
    }

    constructor()
      ensures Valid() && subscribers == []
    {
      subscribers := [];
    }

    /** `subscribe`: 400 and no change for an email already subscribed;
        otherwise exactly that email is added. Either way the email is
        subscribed afterwards and no other email is. */
    method Subscribe(email: string, now: int) returns (res: Response<()>)
      requires Valid()
      modifies this
      ensures Valid()
      ensures ByEmail(old(subscribers), email).Some? ==>
                res == Response(400, "Email already subscribed to newsletter", None) && subscribers == old(subscribers)
      ensures ByEmail(old(subscribers), email).None? ==>
                res == Response(200, "Newsletter subscribed successfully", None)
                && subscribers == old(subscribers) + [Subscriber(email, now)]
      ensures Emails(subscribers) == Emails(old(subscribers)) + {email}
    {
      var existing := ByEmail(subscribers, email);
      if existing.Some? {
        return Response(400, "Email already subscribed to newsletter", None);
      }
      EmailsAppend(subscribers, Subscriber(email, now));
      subscribers := subscribers + [Subscriber(email, now)];
      res := Response(200, "Newsletter subscribed successfully", None);
    }
  }

  /** Subscribing the same email twice: the second request is refused and
      the list stays as the first left it. */
  method SubscribeTwice(store: NewsletterStore, email: string, first: int, second: int)
    returns (once: Response<()>, twice: Response<()>)
    requires store.Valid()
    modifies store
    ensures Emails(store.subscribers) == Emails(old(store.subscribers)) + {email}
    ensures store.Valid()
    ensures twice == Response(400, "Email already subscribed to newsletter", None)
    ensures store.subscribers == if ByEmail(old(store.subscribers), email).Some? then old(store.subscribers)
                                 else old(store.subscribers) + [Subscriber(email, first)]
  {
    once := store.Subscribe(email, first);
    ghost var afterFirst := store.subscribers;
    assert email in Emails(afterFirst);
    twice := store.Subscribe(email, second);
    assert store.subscribers == afterFirst;
  }
}
