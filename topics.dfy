/** The topic list page of the Angular client. Topics are objects: the delete
    callback drops the entries that are the very object that was deleted
    (reference inequality), not those that merely look alike. */
module Topics {
  import Records

  class TopicEntry {
    const name: string
    const description: string
    const id: int

    constructor (name: string, description: string, id: int)
      ensures this.name == name && this.description == description && this.id == id
    {
      this.name := name;
      this.description := description;
      this.id := id;
    }
  }

  /** The entries of s other than x, in their order: `s.filter(t => t != x)`. */
  function Without(s: seq<TopicEntry>, x: TopicEntry): (r: seq<TopicEntry>)
    ensures x !in r
    ensures |r| <= |s|
    ensures forall y :: y in r ==> y in s
  {
    if s == [] then []
    else (if s[0] != x then [s[0]] else []) + Without(s[1..], x)
  }

  /** Filtering a concatenation filters each part. */
  lemma {:induction false} WithoutAppend(a: seq<TopicEntry>, b: seq<TopicEntry>, x: TopicEntry)
    ensures Without(a + b, x) == Without(a, x) + Without(b, x)
  {
    if a != [] {
      assert (a + b)[1..] == a[1..] + b;
      WithoutAppend(a[1..], b, x);
    } else {
      assert a + b == b;
    }
  }

  /** Exactly the occurrences of x are removed; every other entry keeps its
      number of occurrences. */
  lemma {:induction false} WithoutCounts(s: seq<TopicEntry>, x: TopicEntry)
    ensures multiset(Without(s, x)) == multiset(s)[x := 0]
  {
    if s != [] {
      WithoutCounts(s[1..], x);
      assert s == [s[0]] + s[1..];
    }
  }

  /** Without x, a list that does not hold x is left as it is. */
  lemma {:induction false} WithoutAbsent(s: seq<TopicEntry>, x: TopicEntry)
    requires x !in s
    ensures Without(s, x) == s
  {
    if s != [] {
      WithoutAbsent(s[1..], x);
      assert s == [s[0]] + s[1..];
    }
  }

  /** The entries kept keep their relative order: any two entries other than
      x that occur in this order in s occur in this order in the result. */
  lemma {:induction false} WithoutKeepsOrder(s: seq<TopicEntry>, x: TopicEntry, i: nat, j: nat)
    requires i < j < |s| && s[i] != x && s[j] != x
    ensures exists i', j' :: 0 <= i' < j' < |Without(s, x)| && Without(s, x)[i'] == s[i] && Without(s, x)[j'] == s[j]
  {
    var a, b, c := s[..i], s[i..j], s[j..];
    assert s == a + b + c;
    WithoutAppend(a + b, c, x);
    WithoutAppend(a, b, x);
    assert b == [s[i]] + b[1..];
    assert c == [s[j]] + c[1..];
    var wa, wb, wc := Without(a, x), Without(b, x), Without(c, x);
    assert wb[0] == s[i];
    assert wc[0] == s[j];
    assert Without(s, x)[|wa|] == s[i];
    assert Without(s, x)[|wa| + |wb|] == s[j];
  }

  class TopicsComponent {
    var topics: seq<TopicEntry>
    var newTopicName: string
    var newTopicDescription: string

    /** The field initialisers; the list request is still outstanding. */
    constructor ()
      ensures topics == [] && newTopicName == "" && newTopicDescription == ""
    {
      topics := [];
      newTopicName := "";
      newTopicDescription := "";
    }

    /** The constructor's callback: take over the list, replacing null by the empty list. */
    method OnTopicsLoaded(payload: Records.Option<seq<TopicEntry>>)
      modifies this
      ensures payload.None? ==> topics == []
      ensures payload.Some? ==> topics == payload.value
      ensures newTopicName == old(newTopicName) && newTopicDescription == old(newTopicDescription)
    {
      match payload {
        case None => topics := [];
        case Some(list) => topics := list;
      }
    }

    /** The createTopic callback: the returned topic goes to the end of the list. */
    method OnTopicCreated(topic: TopicEntry)
      modifies this
      ensures topics == old(topics) + [topic]
      ensures newTopicName == old(newTopicName) && newTopicDescription == old(newTopicDescription)
    {
      topics := topics + [topic];
    }

    /** The deleteTopic callback: every entry that is the deleted object goes. */
    method OnTopicDeleted(topic: TopicEntry)
      modifies this
      ensures topics == Without(old(topics), topic)
      ensures topic !in topics
      ensures multiset(topics) == multiset(old(topics))[topic := 0]
      ensures newTopicName == old(newTopicName) && newTopicDescription == old(newTopicDescription)
    {
      WithoutCounts(topics, topic);
      topics := Without(topics, topic);
    }
  }
}
