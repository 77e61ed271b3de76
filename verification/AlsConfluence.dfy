/** The order in which the messages of one AFC request arrive does not matter: every order
    completes the bundle at its last message, with the same contents. */
module AlsConfluence {
  import opened Wrappers
  import opened KafkaOffsets
  import opened AlsBundle

  function Messages(feed: seq<Arrival>): (ms: seq<AlsMessage>)
    ensures |ms| == |feed|
  {
    if feed == [] then [] else Messages(feed[..|feed| - 1]) + [feed[|feed| - 1].message]
  }

  predicate GoodRequest(m: AlsMessage, n: nat) {
    && m.content.Request? && m.content.request.Some?
    && m.content.request.value.requests.Some? && |m.content.request.value.requests.value| == n
  }

  predicate GoodResponse(m: AlsMessage) {
    m.content.Response? && m.content.response.Some? && m.content.response.value.Some?
  }

  predicate GoodConfig(m: AlsMessage, n: nat) {
    m.content.Config? && m.content.indexes != {} && forall i :: i in m.content.indexes ==> 0 <= i < n
  }

  predicate Good(m: AlsMessage, n: nat) {
    GoodRequest(m, n) || GoodResponse(m) || GoodConfig(m, n)
  }

  // At most one Request, at most one Response, no two Configs for the same request
  predicate Compatible(a: AlsMessage, b: AlsMessage) {
    match a.content
    case Request(_) => !b.content.Request?
    case Response(_) => !b.content.Response?
    case Config(_, indexes) => b.content.Config? ==> indexes !! b.content.indexes
  }

  predicate Brings(m: AlsMessage, i: int) {
    m.content.Config? && i in m.content.indexes
  }

  ghost predicate Served(ms: seq<AlsMessage>, i: int) {
    exists m :: m in ms && Brings(m, i)
  }

  ghost predicate Part(ms: seq<AlsMessage>, n: nat) {
    && (forall i :: 0 <= i < |ms| ==> Good(ms[i], n))
    && (forall i, j :: 0 <= i < j < |ms| ==> Compatible(ms[i], ms[j]))
  }

  // All messages of a request of n entries: one Request, one Response, and Configs that
  // share the entries out between them.
  ghost predicate Family(ms: seq<AlsMessage>, n: nat) {
    && 0 < n && Part(ms, n)
    && (exists m :: m in ms && m.content.Request?)
    && (exists m :: m in ms && m.content.Response?)
    && (forall i :: 0 <= i < n ==> Served(ms, i))
  }

  // ---- What the messages so far amount to ----

  function RequestIn(ms: seq<AlsMessage>): (r: Option<AlsMessage>)
    ensures r.Some? ==> r.value in ms && r.value.content.Request?
    ensures r.None? ==> forall m :: m in ms ==> !m.content.Request?
  {
    if ms == [] then None else
    var last := ms[|ms| - 1];
    if last.content.Request? then Some(last) else RequestIn(ms[..|ms| - 1])
  }

  function ResponseIn(ms: seq<AlsMessage>): (r: Option<AlsMessage>)
    ensures r.Some? ==> r.value in ms && r.value.content.Response?
    ensures r.None? ==> forall m :: m in ms ==> !m.content.Response?
  {
    if ms == [] then None else
    var last := ms[|ms| - 1];
    if last.content.Response? then Some(last) else ResponseIn(ms[..|ms| - 1])
  }

  function ConfigsIn(ms: seq<AlsMessage>): Configs {
    if ms == [] then map[] else
    var before := ConfigsIn(ms[..|ms| - 1]);
    match ms[|ms| - 1].content
    case Config(info, indexes) => Filed(before, info, indexes)
    case _ => before
  }

  ghost predicate Holds(b: Bundle, ms: seq<AlsMessage>) {
    && (match RequestIn(ms)
        case None => b.request == None
        case Some(m) => b.request == m.content.request && b.requestTimetag == m.timeTag)
    && (match ResponseIn(ms)
        case None => b.response == None
        case Some(m) => Some(b.response) == m.content.response && b.responseTimetag == m.timeTag)
    && b.configs == ConfigsIn(ms)
    && b.assembled == Complete(b)
  }

  lemma PartOfPrefix(ms: seq<AlsMessage>, n: nat, k: nat)
    requires Part(ms, n) && k <= |ms|
    ensures Part(ms[..k], n)
  {
  }

  lemma {:induction false} KeysAreIndexes(ms: seq<AlsMessage>, n: nat)
    requires Part(ms, n)
    ensures forall k :: k in ConfigsIn(ms) ==> k.Some? && 0 <= k.value < n
  {
    if ms != [] {
      PartOfPrefix(ms, n, |ms| - 1);
      KeysAreIndexes(ms[..|ms| - 1], n);
      assert Good(ms[|ms| - 1], n);
    }
  }

  lemma {:induction false} FoundIn(ms: seq<AlsMessage>, n: nat, i: int) returns (m: AlsMessage)
    requires Part(ms, n) && Some(i) in ConfigsIn(ms)
    ensures m in ms && Brings(m, i) && ConfigsIn(ms)[Some(i)] == m.content.info
  {
    var last := ms[|ms| - 1];
    if Brings(last, i) {
      m := last;
    } else {
      PartOfPrefix(ms, n, |ms| - 1);
      assert Good(last, n);
      m := FoundIn(ms[..|ms| - 1], n, i);
    }
  }

  lemma {:induction false} NotBroughtIn(ms: seq<AlsMessage>, n: nat, i: int)
    requires Part(ms, n) && forall m :: m in ms ==> !Brings(m, i)
    ensures Some(i) !in ConfigsIn(ms)
  {
    if ms != [] {
      PartOfPrefix(ms, n, |ms| - 1);
      var last := ms[|ms| - 1];
      assert last in ms && Good(last, n) && !Brings(last, i);
      NotBroughtIn(ms[..|ms| - 1], n, i);
    }
  }

  lemma {:induction false} BroughtIn(ms: seq<AlsMessage>, n: nat, j: nat, i: int)
    requires Part(ms, n) && j < |ms| && Brings(ms[j], i)
    ensures Some(i) in ConfigsIn(ms) && ConfigsIn(ms)[Some(i)] == ms[j].content.info
  {
    var last := ms[|ms| - 1];
    assert Good(last, n) && Good(ms[j], n);
    if j < |ms| - 1 {
      PartOfPrefix(ms, n, |ms| - 1);
      BroughtIn(ms[..|ms| - 1], n, j, i);
      assert Compatible(ms[j], last);
    }
  }

  // ---- A proper part of the family does not complete the bundle, the whole of it does ----

  lemma AnyOf<T>(s: set<T>) returns (i: T)
    requires s != {}
    ensures i in s
  {
    i :| i in s;
  }

  lemma NotYetComplete(b: Bundle, ms: seq<AlsMessage>, n: nat, k: nat)
    requires Family(ms, n) && k < |ms|
    requires Holds(b.(assembled := Complete(b)), ms[..k])
    ensures !Complete(b)
  {
    var missing := ms[k];
    assert Good(missing, n);
    PartOfPrefix(ms, n, k);
    match missing.content
    case Request(_) =>
      if RequestIn(ms[..k]).Some? {
        var j :| 0 <= j < k && ms[j] == RequestIn(ms[..k]).value;
        assert Compatible(ms[j], missing);
      }
    case Response(_) =>
      if ResponseIn(ms[..k]).Some? {
        var j :| 0 <= j < k && ms[j] == ResponseIn(ms[..k]).value;
        assert Compatible(ms[j], missing);
      }
    case Config(_, indexes) =>
      assert GoodConfig(missing, n);
      var i := AnyOf(indexes);
      forall m | m in ms[..k]
        ensures !Brings(m, i)
      {
        var j :| 0 <= j < k && ms[j] == m;
        assert Compatible(ms[j], missing);
      }
      NotBroughtIn(ms[..k], n, i);
      KeysAreIndexes(ms[..k], n);
      TooFewConfigs(b, ms[..k], n, i);
  }

  lemma {:induction false} TooFewConfigs(b: Bundle, ms: seq<AlsMessage>, n: nat, i: int)
    requires Part(ms, n) && Holds(b.(assembled := Complete(b)), ms)
    requires 0 <= i < n && Some(i) !in b.configs
    requires forall k :: k in b.configs ==> k.Some? && 0 <= k.value < n
    ensures !Complete(b)
  {
    var rest := UpTo(n) - {Some(i)};
    assert b.configs.Keys <= rest;
    SizeOfSubset(b.configs.Keys, rest);
    assert |b.configs| == |b.configs.Keys| < n;
    if RequestIn(ms).Some? {
      assert Good(RequestIn(ms).value, n);
    }
  }

  lemma {:induction false} SizeOfSubset<T>(a: set<T>, b: set<T>)
    requires a <= b
    ensures |a| <= |b|
  {
    if a != {} {
      var x :| x in a;
      SizeOfSubset(a - {x}, b - {x});
    }
  }

  lemma CompleteAtLast(b: Bundle, ms: seq<AlsMessage>, n: nat)
    requires Family(ms, n) && Holds(b.(assembled := Complete(b)), ms)
    ensures Complete(b)
  {
    assert RequestIn(ms).Some? && ResponseIn(ms).Some?;
    assert Good(RequestIn(ms).value, n) && Good(ResponseIn(ms).value, n);
    KeysAreIndexes(ms, n);
    forall k | k in UpTo(n)
      ensures k in b.configs
    {
      assert Served(ms, k.value);
      var m :| m in ms && Brings(m, k.value);
      var j :| 0 <= j < |ms| && ms[j] == m;
      BroughtIn(ms, n, j, k.value);
    }
    assert b.configs.Keys == UpTo(n);
    assert |b.configs| == |b.configs.Keys| == n;
  }

  lemma NothingLikeIt(ms: seq<AlsMessage>, m: AlsMessage, n: nat)
    requires Part(ms + [m], n)
    ensures Good(m, n)
    ensures m.content.Request? ==> RequestIn(ms) == None
    ensures m.content.Response? ==> ResponseIn(ms) == None
  {
    var all := ms + [m];
    assert all[|ms|] == m;
    forall x | x in ms
      ensures Compatible(x, m)
    {
      var j :| 0 <= j < |ms| && ms[j] == x;
      assert all[j] == x && Compatible(all[j], all[|ms|]);
    }
  }

  lemma PutInHolds(b: Bundle, ms: seq<AlsMessage>, m: AlsMessage, n: nat)
    requires Good(m, n) && Holds(b, ms)
    requires m.content.Request? ==> RequestIn(ms) == None
    requires m.content.Response? ==> ResponseIn(ms) == None
    ensures Screen(b, m.content) == Accepted
    ensures var b' := PutIn(b, m); Holds(b'.(assembled := Complete(b')), ms + [m])
  {
    assert (ms + [m])[..|ms|] == ms;
  }

  lemma {:induction false} HoldingFits(b: Bundle, ms: seq<AlsMessage>, n: nat)
    requires Part(ms, n) && Holds(b, ms)
    ensures IndexesFit(b)
  {
    KeysAreIndexes(ms, n);
    if RequestIn(ms).Some? {
      assert Good(RequestIn(ms).value, n);
    }
  }

  lemma StepWhenFit(b: Bundle, a: Arrival)
    requires !b.assembled
    requires var b0 := b.(lastUpdate := a.now, afcServer := a.message.afcServer);
      Screen(b0, a.message.content) == Accepted && IndexesFit(PutIn(b0, a.message))
    ensures var b1 := PutIn(b.(lastUpdate := a.now, afcServer := a.message.afcServer), a.message);
      Step(b, a) == (b1.(assembled := Complete(b1), positions := b1.positions + {a.position}), Accepted)
  {
  }

  lemma {:induction false} AcceptsOneMore(b: Bundle, ms: seq<AlsMessage>, a: Arrival, n: nat)
    requires Part(ms + [a.message], n) && Holds(b, ms) && !b.assembled
    ensures Step(b, a).1 == Accepted && Holds(Step(b, a).0, ms + [a.message])
  {
    hide Updated, Step, Part, Good, PutIn, Screen;
    var b0 := b.(lastUpdate := a.now, afcServer := a.message.afcServer);
    NothingLikeIt(ms, a.message, n);
    PutInHolds(b0, ms, a.message, n);
    var b1 := PutIn(b0, a.message);
    HoldingFits(b1.(assembled := Complete(b1)), ms + [a.message], n);
    StepWhenFit(b, a);
  }

  lemma MessagesOfPrefix(feed: seq<Arrival>, k: nat)
    requires 0 < k <= |feed|
    ensures Messages(feed[..k]) == Messages(feed[..k - 1]) + [feed[k - 1].message]
  {
    assert feed[..k][..k - 1] == feed[..k - 1];
  }

  lemma {:induction false} MessagesAreInOrder(feed: seq<Arrival>, k: nat)
    requires k <= |feed|
    ensures Messages(feed[..k]) == Messages(feed)[..k]
    decreases |feed| - k
  {
    if k == |feed| {
      assert feed[..k] == feed;
    } else {
      MessagesAreInOrder(feed, k + 1);
      MessagesOfPrefix(feed, k + 1);
    }
  }

  lemma {:induction false} FedFamily(now: int, feed: seq<Arrival>, n: nat, k: nat)
    requires Family(Messages(feed), n) && k <= |feed|
    ensures Holds(Fed(EmptyBundle(now), feed[..k]), Messages(feed[..k]))
    ensures Fed(EmptyBundle(now), feed[..k]).assembled <==> k == |feed|
    ensures 0 < k ==> Step(Fed(EmptyBundle(now), feed[..k - 1]), feed[k - 1]).1 == Accepted
  {
    var ms := Messages(feed);
    var b := Fed(EmptyBundle(now), feed[..k]);
    MessagesAreInOrder(feed, k);
    if k > 0 {
      FedFamily(now, feed, n, k - 1);
      MessagesOfPrefix(feed, k);
      assert feed[..k][..k - 1] == feed[..k - 1];
      PartOfPrefix(ms, n, k);
      AcceptsOneMore(Fed(EmptyBundle(now), feed[..k - 1]), Messages(feed[..k - 1]), feed[k - 1], n);
    }
    if k < |feed| {
      NotYetComplete(b, ms, n, k);
    } else {
      assert ms[..k] == ms;
      CompleteAtLast(b, ms, n);
    }
  }

  // ---- Two orders of the same messages ----

  lemma {:induction false} Twice<T>(s: seq<T>, x: T) returns (i: nat, j: nat)
    requires 2 <= multiset(s)[x]
    ensures i < j < |s| && s[i] == x && s[j] == x
  {
    var last := |s| - 1;
    assert s == s[..last] + [s[last]];
    if s[last] == x {
      assert x in multiset(s[..last]);
      j := last;
      i :| 0 <= i < last && s[i] == x;
    } else {
      i, j := Twice(s[..last], x);
    }
  }

  lemma AtTwoPlaces<T>(s: seq<T>, i: nat, j: nat)
    requires i < j < |s|
    ensures s[i] == s[j] ==> 2 <= multiset(s)[s[i]]
  {
    assert s == s[..j] + [s[j]] + s[j + 1..];
    assert s[i] in s[..j];
  }

  lemma CompatibleEitherWay(a: AlsMessage, b: AlsMessage)
    requires Compatible(a, b)
    ensures Compatible(b, a)
  {
  }

  lemma SameMembers<T>(s: seq<T>, t: seq<T>)
    requires multiset(s) == multiset(t)
    ensures forall x :: x in s <==> x in t
  {
    assert forall x :: x in s <==> x in multiset(s);
    assert forall x :: x in t <==> x in multiset(t);
  }

  lemma CompatibleInAnyOrder(ms: seq<AlsMessage>, other: seq<AlsMessage>, n: nat, i: nat, j: nat)
    requires Part(ms, n) && multiset(ms) == multiset(other) && i < j < |other|
    ensures Compatible(other[i], other[j])
  {
    var a, b := other[i], other[j];
    SameMembers(ms, other);
    if a == b {
      AtTwoPlaces(other, i, j);
      var p, q := Twice(ms, a);
      assert Compatible(ms[p], ms[q]);
    } else {
      assert a in other && b in other;
      var p :| 0 <= p < |ms| && ms[p] == a;
      var q :| 0 <= q < |ms| && ms[q] == b;
      if p < q {
        assert Compatible(ms[p], ms[q]);
      } else {
        assert Compatible(ms[q], ms[p]);
        CompatibleEitherWay(b, a);
      }
    }
  }

  lemma FamilyInAnyOrder(ms: seq<AlsMessage>, other: seq<AlsMessage>, n: nat)
    requires Family(ms, n) && multiset(ms) == multiset(other)
    ensures Family(other, n)
  {
    hide Good, Compatible, Brings;
    SameMembers(ms, other);
    forall i | 0 <= i < |other|
      ensures Good(other[i], n)
    {
      assert other[i] in other;
      var p :| 0 <= p < |ms| && ms[p] == other[i];
    }
    forall i, j | 0 <= i < j < |other|
      ensures Compatible(other[i], other[j])
    {
      CompatibleInAnyOrder(ms, other, n, i, j);
    }
    var request :| request in ms && request.content.Request?;
    var response :| response in ms && response.content.Response?;
    assert request in other && response in other;
    forall i | 0 <= i < n
      ensures Served(other, i)
    {
      assert Served(ms, i);
      var m :| m in ms && Brings(m, i);
      assert m in other;
    }
  }

  lemma SameConfigs(ms: seq<AlsMessage>, other: seq<AlsMessage>, n: nat)
    requires Part(ms, n) && Part(other, n)
    requires forall m :: m in ms ==> m in other
    ensures forall k :: k in ConfigsIn(ms) ==> k in ConfigsIn(other) && ConfigsIn(other)[k] == ConfigsIn(ms)[k]
  {
    KeysAreIndexes(ms, n);
    forall k | k in ConfigsIn(ms)
      ensures k in ConfigsIn(other) && ConfigsIn(other)[k] == ConfigsIn(ms)[k]
    {
      var m := FoundIn(ms, n, k.value);
      var j :| 0 <= j < |other| && other[j] == m;
      BroughtIn(other, n, j, k.value);
    }
  }

  lemma SameOrCompatible(ms: seq<AlsMessage>, n: nat, a: AlsMessage, b: AlsMessage)
    requires Part(ms, n) && a in ms && b in ms
    ensures a == b || Compatible(a, b) || Compatible(b, a)
  {
    hide Compatible, Good;
    var p :| 0 <= p < |ms| && ms[p] == a;
    var q :| 0 <= q < |ms| && ms[q] == b;
    if p < q {
      assert Compatible(ms[p], ms[q]);
    } else if q < p {
      assert Compatible(ms[q], ms[p]);
    }
  }

  lemma {:induction false} SameOnes(ms: seq<AlsMessage>, other: seq<AlsMessage>, n: nat)
    requires Family(ms, n) && Family(other, n)
    requires forall m :: m in ms ==> m in other
    ensures RequestIn(ms) == RequestIn(other) && RequestIn(ms).Some?
    ensures ResponseIn(ms) == ResponseIn(other) && ResponseIn(ms).Some?
  {
    hide Part, Served, RequestIn, ResponseIn;
    SameOrCompatible(other, n, RequestIn(ms).value, RequestIn(other).value);
    SameOrCompatible(other, n, ResponseIn(ms).value, ResponseIn(other).value);
  }

  // Every order of the messages of a request is accepted message by message, assembles the
  // bundle exactly at the last one, and gives the same request, response and configs.
  lemma {:induction false} AssemblyIsConfluent(now: int, feed: seq<Arrival>, now': int, feed': seq<Arrival>, n: nat)
    requires Family(Messages(feed), n)
    requires multiset(Messages(feed)) == multiset(Messages(feed'))
    ensures forall k :: 0 <= k <= |feed'| ==> (Fed(EmptyBundle(now'), feed'[..k]).assembled <==> k == |feed'|)
    ensures forall k :: 0 <= k < |feed'| ==> Step(Fed(EmptyBundle(now'), feed'[..k]), feed'[k]).1 == Accepted
    ensures var b, b' := Fed(EmptyBundle(now), feed), Fed(EmptyBundle(now'), feed');
      && b'.request == b.request && b'.requestTimetag == b.requestTimetag
      && b'.response == b.response && b'.responseTimetag == b.responseTimetag
      && b'.configs == b.configs
  {
    hide Family, Part, Step;
    var ms, ms' := Messages(feed), Messages(feed');
    FamilyInAnyOrder(ms, ms', n);
    forall k | 0 <= k <= |feed'|
      ensures Fed(EmptyBundle(now'), feed'[..k]).assembled <==> k == |feed'|
      ensures k < |feed'| ==> Step(Fed(EmptyBundle(now'), feed'[..k]), feed'[k]).1 == Accepted
    {
      FedFamily(now', feed', n, k);
      if k < |feed'| {
        FedFamily(now', feed', n, k + 1);
      }
    }
    assert feed[..|feed|] == feed && feed'[..|feed'|] == feed';
    FedFamily(now, feed, n, |feed|);
    FedFamily(now', feed', n, |feed'|);
    SameContent(ms, ms', n);
  }

  lemma SameContent(ms: seq<AlsMessage>, other: seq<AlsMessage>, n: nat)
    requires Family(ms, n) && Family(other, n) && multiset(ms) == multiset(other)
    ensures RequestIn(ms) == RequestIn(other) && RequestIn(ms).Some?
    ensures ResponseIn(ms) == ResponseIn(other) && ResponseIn(ms).Some?
    ensures ConfigsIn(ms) == ConfigsIn(other)
  {
    SameMembers(ms, other);
    SameOnes(ms, other, n);
    SameConfigs(ms, other, n);
    SameConfigs(other, ms, n);
  }
}
