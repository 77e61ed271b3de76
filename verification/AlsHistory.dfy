/** What a bundle amounts to after a sequence of messages, in terms of these messages: when it is
    assembled, which messages are accepted, and which config each request gets (update and take_apart of
    class AlsMessageBundle of als/als_siphon.py). */
module AlsHistory {
  import opened Wrappers
  import opened KafkaOffsets
  import opened AlsBundle
  import opened AlsConfluence
  import opened BundleObject

  // ---- What one message does ----

  predicate IsRepeated(b: Bundle, content: Content) {
    (content.Request? && b.request.Some?) || (content.Response? && b.response.Some?)
  }

  predicate IsUnreadable(content: Content) {
    (content.Request? && content.request.None?) || (content.Response? && content.response.None?)
  }

  // With the message put in, there is a request, there are configs, and the request has no list or a config
  // is for a request that is not in it
  ghost predicate IsOutOfRange(request: Option<RequestDoc>, configs: Configs) {
    && request.Some? && configs != map[]
    && (request.value.requests.None?
        || exists i: int :: Some(i) in configs && !(0 <= i < |request.value.requests.value|))
  }

  lemma OutcomeExactly(b: Bundle, a: Arrival)
    ensures Step(b, a).1 == Ignored <==> b.assembled || IsRepeated(b, a.message.content)
    ensures Step(b, a).1 == Rejected <==>
      && !b.assembled && !IsRepeated(b, a.message.content)
      && (IsUnreadable(a.message.content) || IsOutOfRange(Step(b, a).0.request, Step(b, a).0.configs))
    ensures Step(b, a).1 == Accepted ==> Step(b, a).0.positions == b.positions + {a.position}
    ensures Step(b, a).1 != Accepted ==> Step(b, a).0.positions == b.positions && Step(b, a).0.assembled == b.assembled
    ensures Step(b, a).0.lastUpdate == a.now
    ensures Step(b, a).0.afcServer == if b.assembled then b.afcServer else a.message.afcServer
  {
  }

  // ---- Configs ----

  predicate IsForAll(m: AlsMessage) {
    m.content.Config? && m.content.indexes == {}
  }

  // The last of the messages that brings a config for request i
  predicate IsLastFor(ms: seq<AlsMessage>, k: int, i: int) {
    0 <= k < |ms| && Brings(ms[k], i) && forall j :: k < j < |ms| ==> !Brings(ms[j], i)
  }

  predicate IsLastForAll(ms: seq<AlsMessage>, k: int) {
    0 <= k < |ms| && IsForAll(ms[k]) && forall j :: k < j < |ms| ==> !IsForAll(ms[j])
  }

  ghost predicate HasForAll(ms: seq<AlsMessage>) {
    exists m :: m in ms && IsForAll(m)
  }

  // Under each index is the last config for it, under the catch-all the last one for all
  ghost predicate AreFiled(configs: Configs, ms: seq<AlsMessage>) {
    && (forall k, i :: IsLastFor(ms, k, i) ==> Some(i) in configs && configs[Some(i)] == ms[k].content.info)
    && (forall k :: IsLastForAll(ms, k) ==> None in configs && configs[None] == ms[k].content.info)
    && (forall i :: Some(i) in configs ==> Served(ms, i))
    && (None in configs ==> HasForAll(ms))
  }

  lemma LastOfMore(ms: seq<AlsMessage>, m: AlsMessage)
    ensures forall k, i :: IsLastFor(ms + [m], k, i) ==> if Brings(m, i) then k == |ms| else IsLastFor(ms, k, i)
    ensures forall k :: IsLastForAll(ms + [m], k) ==> if IsForAll(m) then k == |ms| else IsLastForAll(ms, k)
    ensures forall k :: 0 <= k < |ms| ==> (ms + [m])[k] == ms[k]
  {
    var more := ms + [m];
    assert forall j :: 0 <= j < |ms| ==> more[j] == ms[j];
    assert more[|ms|] == m;
    hide Brings, IsForAll;
    forall k, i | IsLastFor(more, k, i)
      ensures if Brings(m, i) then k == |ms| else IsLastFor(ms, k, i)
    {
      assert forall j :: k < j < |ms| ==> !Brings(more[j], i);
    }
    forall k | IsLastForAll(more, k)
      ensures if IsForAll(m) then k == |ms| else IsLastForAll(ms, k)
    {
      assert forall j :: k < j < |ms| ==> !IsForAll(more[j]);
    }
  }

  lemma SameFiled(configs: Configs, ms: seq<AlsMessage>, m: AlsMessage)
    requires AreFiled(configs, ms) && !m.content.Config?
    ensures AreFiled(configs, ms + [m])
  {
    RepeatedBrings(m);
    LastOfMore(ms, m);
    ServedStays(ms, m);
    assert forall k, i :: IsLastFor(ms, k, i) ==> 0 <= k < |ms|;
    assert forall k :: IsLastForAll(ms, k) ==> 0 <= k < |ms|;
    hide IsLastFor, IsLastForAll, Brings, IsForAll, Served, HasForAll;
  }

  lemma ServedStays(ms: seq<AlsMessage>, m: AlsMessage)
    ensures forall i :: Served(ms, i) ==> Served(ms + [m], i)
    ensures HasForAll(ms) ==> HasForAll(ms + [m])
  {
    assert forall x :: x in ms ==> x in ms + [m];
  }

  lemma FiledAt(configs: Configs, info: AfcConfigInfo, indexes: set<int>)
    ensures var filed := Filed(configs, info, indexes);
      && (forall i :: i in indexes ==> Some(i) in filed && filed[Some(i)] == info)
      && (forall i :: i !in indexes ==> (Some(i) in filed <==> Some(i) in configs))
      && (forall i :: i !in indexes && Some(i) in filed ==> filed[Some(i)] == configs[Some(i)])
      && (if indexes == {} then None in filed && filed[None] == info
          else (None in filed <==> None in configs) && (None in filed ==> filed[None] == configs[None]))
  {
  }

  lemma MoreFiled(configs: Configs, ms: seq<AlsMessage>, m: AlsMessage)
    requires AreFiled(configs, ms) && m.content.Config?
    ensures AreFiled(Filed(configs, m.content.info, m.content.indexes), ms + [m])
  {
    var more, filed := ms + [m], Filed(configs, m.content.info, m.content.indexes);
    FiledAt(configs, m.content.info, m.content.indexes);
    LastOfMore(ms, m);
    ServedStays(ms, m);
    assert more[|ms|] == m && m in more;
    assert forall i :: Brings(m, i) <==> i in m.content.indexes;
    assert IsForAll(m) <==> m.content.indexes == {};
    assert forall i :: Brings(m, i) ==> Served(more, i);
    assert IsForAll(m) ==> HasForAll(more);
    hide Filed, IsLastFor, IsLastForAll, Brings, IsForAll, Served, HasForAll;
  }

  lemma NoneFiled()
    ensures AreFiled(map[], [])
  {
  }

  // ---- What a bundle is made of ----

  // The request is the one of the messages
  ghost predicate IsRequestOf(request: Option<RequestDoc>, timeTag: int, ms: seq<AlsMessage>) {
    && (request.Some? ==> exists m :: m in ms && m.content.Request?)
    && forall m :: m in ms && m.content.Request? ==>
         request.Some? && request == m.content.request && timeTag == m.timeTag
  }

  // The response is the one of the messages. One that is null leaves the bundle without a response.
  ghost predicate IsResponseOf(response: Option<ResponseDoc>, timeTag: int, ms: seq<AlsMessage>) {
    && (response.Some? ==> exists m :: m in ms && m.content.Response?)
    && forall m :: m in ms && GoodResponse(m) ==> response == m.content.response.value && timeTag == m.timeTag
  }

  ghost predicate IsMadeOf(b: Bundle, ms: seq<AlsMessage>) {
    && AreFiled(b.configs, ms) && IsRequestOf(b.request, b.requestTimetag, ms)
    && IsResponseOf(b.response, b.responseTimetag, ms)
  }

  lemma MoreRequest(request: Option<RequestDoc>, timeTag: int, ms: seq<AlsMessage>, m: AlsMessage)
    requires IsRequestOf(request, timeTag, ms)
    ensures m.content.Request? && request.None? && m.content.request.Some? ==>
      IsRequestOf(m.content.request, m.timeTag, ms + [m])
    ensures !m.content.Request? ==> IsRequestOf(request, timeTag, ms + [m])
  {
    assert forall x :: x in ms + [m] <==> x in ms || x == m;
  }

  lemma MoreResponse(response: Option<ResponseDoc>, timeTag: int, ms: seq<AlsMessage>, m: AlsMessage)
    requires IsResponseOf(response, timeTag, ms)
    ensures m.content.Response? && response.None? && m.content.response.Some? ==>
      IsResponseOf(m.content.response.value, m.timeTag, ms + [m])
    ensures !m.content.Response? ==> IsResponseOf(response, timeTag, ms + [m])
  {
    assert forall x :: x in ms + [m] <==> x in ms || x == m;
  }

  lemma AcceptedStep(b: Bundle, a: Arrival)
    requires Step(b, a).1 == Accepted
    ensures var b', content := Step(b, a).0, a.message.content;
      match content
      case Request(request) =>
        && b.request.None? && b'.request == request && request.Some? && b'.requestTimetag == a.message.timeTag
        && b'.response == b.response && b'.responseTimetag == b.responseTimetag && b'.configs == b.configs
      case Response(response) =>
        && b.response.None? && Some(b'.response) == response && b'.responseTimetag == a.message.timeTag
        && b'.request == b.request && b'.requestTimetag == b.requestTimetag && b'.configs == b.configs
      case Config(info, indexes) =>
        && b'.configs == Filed(b.configs, info, indexes) && b'.request == b.request && b'.response == b.response
        && b'.requestTimetag == b.requestTimetag && b'.responseTimetag == b.responseTimetag
  {
    hide Filed, IndexesFit, Complete;
  }

  lemma AcceptedIsMadeOf(b: Bundle, ms: seq<AlsMessage>, a: Arrival)
    requires IsMadeOf(b, ms) && Step(b, a).1 == Accepted
    ensures IsMadeOf(Step(b, a).0, ms + [a.message])
  {
    var m := a.message;
    AcceptedStep(b, a);
    MoreRequest(b.request, b.requestTimetag, ms, m);
    MoreResponse(b.response, b.responseTimetag, ms, m);
    if m.content.Config? {
      MoreFiled(b.configs, ms, m);
    } else {
      SameFiled(b.configs, ms, m);
    }
    hide AreFiled, IsRequestOf, IsResponseOf, Filed, Step;
  }

  lemma SkippedIsMadeOf(b: Bundle, ms: seq<AlsMessage>, a: Arrival)
    requires IsMadeOf(b, ms) && Step(b, a).1 != Accepted
    ensures Unusable(Step(b, a).0) || IsMadeOf(Step(b, a).0, ms)
  {
    hide AreFiled, IsRequestOf, IsResponseOf, Filed, IndexesFit, Complete;
  }

  // Whatever messages came: a bundle that is still usable is made of those that were accepted
  lemma {:induction false} MadeOfAccepted(now: int, feed: seq<Arrival>)
    ensures var b := Fed(EmptyBundle(now), feed);
      Unusable(b) || IsMadeOf(b, Messages(AcceptedOf(EmptyBundle(now), feed)))
  {
    if feed == [] {
      NoneFiled();
    } else {
      var before, last := feed[..|feed| - 1], feed[|feed| - 1];
      MadeOfAccepted(now, before);
      var b, accepted := Fed(EmptyBundle(now), before), AcceptedOf(EmptyBundle(now), before);
      hide IsMadeOf, Unusable, Step;
      if Unusable(b) {
        UnusableForGood(b, last);
      } else if Step(b, last).1 == Accepted {
        AcceptedIsMadeOf(b, Messages(accepted), last);
        assert (accepted + [last])[..|accepted|] == accepted;
      } else {
        SkippedIsMadeOf(b, Messages(accepted), last);
        assert accepted + [] == accepted;
      }
    }
  }

  // Each request that is paired gets the last config that was accepted for it, or the last one for all if
  // none was for it.
  lemma PairsHaveOwnConfigs(now: int, feed: seq<Arrival>, parts: StoreParts, i: nat)
    requires Fed(EmptyBundle(now), feed).assembled && Covered(Fed(EmptyBundle(now), feed))
    requires var b := Fed(EmptyBundle(now), feed);
      && CanBeTakenApart(b) && PartsOf(b, parts) && i < |b.request.value.requests.value|
      && Takes(b.request.value.requests.value, ById(b.response.value.responses.value), i)
    ensures var ms := Messages(AcceptedOf(EmptyBundle(now), feed));
      var id := Fed(EmptyBundle(now), feed).request.value.requests.value[i].id;
      && id.Some? && id.value in parts.requestResponses
      && (forall k :: IsLastFor(ms, k, i) ==> parts.requestResponses[id.value].config == ms[k].content.info)
      && (forall k :: IsLastForAll(ms, k) && !Served(ms, i) ==>
            parts.requestResponses[id.value].config == ms[k].content.info)
      && (Served(ms, i) || HasForAll(ms))
  {
    MadeOfAccepted(now, feed);
    var b := Fed(EmptyBundle(now), feed);
    var requests, answers := b.request.value.requests.value, ById(b.response.value.responses.value);
    assert PairedAt(requests, answers, b.configs, parts.requestResponses, i);
    hide PartsOf, CanBeTakenApart, ById, IsLastFor, IsLastForAll, Served, HasForAll, IsPairOf;
  }

  // ---- When a bundle is assembled ----

  // Messages of a request of n entries, repeated ones among them too
  predicate Fits(m: AlsMessage, n: nat) {
    match m.content
    case Request(_) => GoodRequest(m, n)
    case Response(_) => GoodResponse(m)
    case Config(_, indexes) => forall i :: i in indexes ==> 0 <= i < n
  }

  ghost predicate HasRequest(ms: seq<AlsMessage>) {
    exists m :: m in ms && m.content.Request?
  }

  ghost predicate HasResponse(ms: seq<AlsMessage>) {
    exists m :: m in ms && m.content.Response?
  }

  // There is a request, a response, and a config for all requests or one for each
  ghost predicate IsReady(ms: seq<AlsMessage>, n: nat) {
    HasRequest(ms) && HasResponse(ms) && (HasForAll(ms) || (0 < n && forall i :: 0 <= i < n ==> Served(ms, i)))
  }

  // Until it is assembled, a bundle has what its messages bring
  ghost predicate Follows(b: Bundle, ms: seq<AlsMessage>, n: nat) {
    if b.assembled then IsReady(ms, n)
    else
      && !IsReady(ms, n)
      && (b.request.Some? <==> HasRequest(ms)) && (b.request.Some? ==> RequestCount(b) == Some(n))
      && (b.response.Some? <==> HasResponse(ms))
      && (None in b.configs <==> HasForAll(ms)) && (forall i :: Some(i) in b.configs <==> Served(ms, i))
      && (forall k :: k in b.configs && k.Some? ==> 0 <= k.value < n)
  }

  lemma MoreIsThere(ms: seq<AlsMessage>, m: AlsMessage)
    ensures HasRequest(ms + [m]) <==> HasRequest(ms) || m.content.Request?
    ensures HasResponse(ms + [m]) <==> HasResponse(ms) || m.content.Response?
    ensures HasForAll(ms + [m]) <==> HasForAll(ms) || IsForAll(m)
    ensures forall i :: Served(ms + [m], i) <==> Served(ms, i) || Brings(m, i)
  {
    var more := ms + [m];
    assert forall x :: x in more <==> x in ms || x == m;
  }

  lemma ReadyStays(ms: seq<AlsMessage>, m: AlsMessage, n: nat)
    requires IsReady(ms, n)
    ensures IsReady(ms + [m], n)
  {
    MoreIsThere(ms, m);
    hide HasRequest, HasResponse, HasForAll, Served;
  }

  // It is complete exactly if everything is there
  lemma CompleteExactly(b: Bundle, n: nat)
    requires b.request.Some? ==> RequestCount(b) == Some(n)
    requires forall k :: k in b.configs && k.Some? ==> 0 <= k.value < n
    ensures Complete(b) <==>
      && b.request.Some? && b.response.Some?
      && (None in b.configs || (0 < n && forall i :: 0 <= i < n ==> Some(i) in b.configs))
  {
    if None !in b.configs {
      assert b.configs.Keys <= UpTo(n);
      assert |b.configs| == |b.configs.Keys|;
      if |b.configs| == n {
        SubsetOfSameSize(b.configs.Keys, UpTo(n));
        assert forall i :: 0 <= i < n ==> Some(i) in UpTo(n);
        assert n == 0 ==> b.configs == map[];
      } else if forall i :: 0 <= i < n ==> Some(i) in b.configs {
        assert b.configs.Keys == UpTo(n);
      }
    }
  }

  lemma PutInFits(b: Bundle, m: AlsMessage, n: nat)
    requires Fits(m, n) && !IsRepeated(b, m.content)
    requires b.request.Some? ==> RequestCount(b) == Some(n)
    requires forall k :: k in b.configs && k.Some? ==> 0 <= k.value < n
    ensures Screen(b, m.content) == Accepted
    ensures var b' := PutIn(b, m);
      && IndexesFit(b') && (b'.request.Some? ==> RequestCount(b') == Some(n))
      && (forall k :: k in b'.configs && k.Some? ==> 0 <= k.value < n)
      && (b'.request.Some? <==> b.request.Some? || m.content.Request?)
      && (b'.response.Some? <==> b.response.Some? || m.content.Response?)
      && (None in b'.configs <==> None in b.configs || IsForAll(m))
      && (forall i :: Some(i) in b'.configs <==> Some(i) in b.configs || Brings(m, i))
  {
    if m.content.Config? {
      FiledAt(b.configs, m.content.info, m.content.indexes);
      hide Filed;
    }
  }

  lemma FittingStep(b: Bundle, ms: seq<AlsMessage>, a: Arrival, n: nat)
    requires Follows(b, ms, n) && Fits(a.message, n) && !b.assembled
    ensures Follows(Step(b, a).0, ms + [a.message], n)
    ensures Step(b, a).1 == if IsRepeated(b, a.message.content) then Ignored else Accepted
  {
    var m := a.message;
    MoreIsThere(ms, m);
    hide HasRequest, HasResponse, HasForAll, Served, Complete, Fits, PutIn, Screen, IndexesFit, IsForAll, Brings;
    if IsRepeated(b, m.content) {
      OutcomeExactly(b, a);
      RepeatedStep(b, a);
      RepeatedBrings(m);
      hide Updated, Step;
    } else {
      var b0 := b.(lastUpdate := a.now, afcServer := m.afcServer);
      PutInFits(b0, m, n);
      StepWhenFit(b, a);
      CompleteExactly(PutIn(b0, m), n);
      hide Updated, Step;
    }
  }

  lemma RepeatedStep(b: Bundle, a: Arrival)
    requires IsRepeated(b, a.message.content) && !b.assembled
    ensures Step(b, a).0 == b.(lastUpdate := a.now, afcServer := a.message.afcServer)
  {
  }

  lemma RepeatedBrings(m: AlsMessage)
    ensures !m.content.Config? ==> !IsForAll(m) && forall i :: !Brings(m, i)
  {
  }

  // For all messages that fit a request of n entries, in any order, with repetitions: the bundle is
  // assembled exactly when there is a request, a response, and a config for all requests or for each.
  lemma {:induction false} AssembledExactly(now: int, feed: seq<Arrival>, n: nat)
    requires forall m :: m in Messages(feed) ==> Fits(m, n)
    ensures Follows(Fed(EmptyBundle(now), feed), Messages(feed), n)
    ensures Fed(EmptyBundle(now), feed).assembled <==> IsReady(Messages(feed), n)
  {
    if feed != [] {
      var before, last := feed[..|feed| - 1], feed[|feed| - 1];
      assert Messages(feed) == Messages(before) + [last.message];
      AssembledExactly(now, before, n);
      var b := Fed(EmptyBundle(now), before);
      if b.assembled {
        ReadyStays(Messages(before), last.message, n);
      } else {
        FittingStep(b, Messages(before), last, n);
      }
    }
  }

  // A message of them is passed over exactly if the bundle is assembled before, or has one of that kind;
  // otherwise it is accepted
  lemma AcceptedExactly(now: int, feed: seq<Arrival>, a: Arrival, n: nat)
    requires Fits(a.message, n) && forall m :: m in Messages(feed) ==> Fits(m, n)
    ensures var ms, kind := Messages(feed), a.message.content;
      Step(Fed(EmptyBundle(now), feed), a).1 ==
        if IsReady(ms, n) || (kind.Request? && HasRequest(ms)) || (kind.Response? && HasResponse(ms)) then Ignored
        else Accepted
  {
    AssembledExactly(now, feed, n);
    var b := Fed(EmptyBundle(now), feed);
    OutcomeExactly(b, a);
    if !b.assembled {
      FittingStep(b, Messages(feed), a, n);
    }
    hide Step, Fits, IsReady, HasRequest, HasResponse;
  }

  // One config for all requests, and others for some of them: with not every request named by a config, the
  // bundle is assembled as soon as request, response and the config for all are there, in whatever order.
  lemma AssembledByForAll(now: int, feed: seq<Arrival>, n: nat, i: int, k: nat)
    requires forall m :: m in Messages(feed) ==> Fits(m, n)
    requires k <= |feed| && 0 <= i && (i < n || n == 0) && !Served(Messages(feed), i)
    ensures Fed(EmptyBundle(now), feed[..k]).assembled <==>
      HasRequest(Messages(feed[..k])) && HasResponse(Messages(feed[..k])) && HasForAll(Messages(feed[..k]))
  {
    MessagesAreInOrder(feed, k);
    var ms := Messages(feed);
    assert forall m :: m in ms[..k] ==> m in ms;
    AssembledExactly(now, feed[..k], n);
    assert !Served(ms[..k], i);
  }

  lemma {:induction false} AllAccepted(b: Bundle, feed: seq<Arrival>)
    requires forall k :: 0 <= k < |feed| ==> Step(Fed(b, feed[..k]), feed[k]).1 == Accepted
    ensures AcceptedOf(b, feed) == feed
  {
    hide Step, Fed;
    if feed != [] {
      var n := |feed| - 1;
      assert feed[..n][..n] == feed[..n];
      forall k | 0 <= k < n
        ensures Step(Fed(b, feed[..n][..k]), feed[..n][k]).1 == Accepted
      {
        assert feed[..n][..k] == feed[..k] && feed[..n][k] == feed[k];
      }
      AllAccepted(b, feed[..n]);
      assert feed == feed[..n] + [feed[n]];
    }
  }

  // A request of n entries, a response and a config for all requests, at places r, s and c
  predicate AreThree(ms: seq<AlsMessage>, n: nat, r: nat, s: nat, c: nat) {
    && |ms| == 3 && r < 3 && s < 3 && c < 3 && r != s && r != c && s != c
    && GoodRequest(ms[r], n) && GoodResponse(ms[s]) && IsForAll(ms[c])
  }

  lemma ThreeHave(ms: seq<AlsMessage>, n: nat, r: nat, s: nat, c: nat, k: nat)
    requires AreThree(ms, n, r, s, c) && k <= 3
    ensures forall m :: m in ms ==> Fits(m, n)
    ensures HasRequest(ms[..k]) <==> r < k
    ensures HasResponse(ms[..k]) <==> s < k
    ensures HasForAll(ms[..k]) <==> c < k
    ensures IsReady(ms[..k], n) <==> k == 3
  {
    assert r < k ==> ms[r] in ms[..k];
    assert s < k ==> ms[s] in ms[..k];
    assert c < k ==> ms[c] in ms[..k];
    NoneServed(ms, n, r, s, c);
    assert forall m :: m in ms[..k] ==> m in ms;
    forall i
      ensures !Served(ms[..k], i)
    {
      assert !Served(ms, i);
    }
    assert !Served(ms[..k], 0) && (k < 3 ==> !(r < k && s < k && c < k));
    hide Served, Fits;
  }

  // In every order of these three: each is accepted, the bundle is assembled exactly at the last of them,
  // and it has what they bring.
  lemma CatchAllFamily(now: int, feed: seq<Arrival>, n: nat, r: nat, s: nat, c: nat)
    requires AreThree(Messages(feed), n, r, s, c)
    ensures forall k :: 0 <= k <= 3 ==> (Fed(EmptyBundle(now), feed[..k]).assembled <==> k == 3)
    ensures forall k :: 0 <= k < 3 ==> Step(Fed(EmptyBundle(now), feed[..k]), feed[k]).1 == Accepted
    ensures var b, ms := Fed(EmptyBundle(now), feed), Messages(feed);
      && b.request == ms[r].content.request && b.requestTimetag == ms[r].timeTag
      && b.response == ms[s].content.response.value && b.responseTimetag == ms[s].timeTag
      && b.configs == map[None := ms[c].content.info]
  {
    var ms := Messages(feed);
    hide Step, Fed, IsReady, Fits, HasRequest, HasResponse, HasForAll, Messages;
    forall k | 0 <= k <= 3
      ensures Fed(EmptyBundle(now), feed[..k]).assembled <==> k == 3
      ensures k < 3 ==> Step(Fed(EmptyBundle(now), feed[..k]), feed[k]).1 == Accepted
    {
      ThreeHave(ms, n, r, s, c, k);
      MessagesAreInOrder(feed, k);
      assert forall m :: m in ms[..k] ==> m in ms;
      AssembledExactly(now, feed[..k], n);
      if k < 3 {
        MessagesAreInOrder(feed, k + 1);
        MessagesOfPrefix(feed, k + 1);
        assert ms[..k + 1] == ms[..k] + [ms[k]];
        assert feed[k].message == ms[k];
        AcceptedExactly(now, feed[..k], feed[k], n);
      }
    }
    AllAccepted(EmptyBundle(now), feed);
    MadeOfAccepted(now, feed);
    assert feed[..3] == feed;
    ThreeBring(Fed(EmptyBundle(now), feed), ms, n, r, s, c);
  }

  lemma ThreeBring(b: Bundle, ms: seq<AlsMessage>, n: nat, r: nat, s: nat, c: nat)
    requires AreThree(ms, n, r, s, c) && IsMadeOf(b, ms)
    ensures b.request == ms[r].content.request && b.requestTimetag == ms[r].timeTag
    ensures b.response == ms[s].content.response.value && b.responseTimetag == ms[s].timeTag
    ensures b.configs == map[None := ms[c].content.info]
  {
    assert ms[r] in ms && ms[s] in ms;
    NoneServed(ms, n, r, s, c);
    hide AreFiled, IsLastForAll, Served, IsForAll;
    OnlyForAll(b.configs, ms, c);
  }

  lemma OnlyForAll(configs: Configs, ms: seq<AlsMessage>, c: nat)
    requires AreFiled(configs, ms) && IsLastForAll(ms, c) && forall i :: !Served(ms, i)
    ensures configs == map[None := ms[c].content.info]
  {
    assert None in configs && configs[None] == ms[c].content.info;
    assert forall i :: Some(i) !in configs;
    hide AreFiled, IsLastForAll, Served;
    forall k
      ensures k in configs <==> k == None
    {
      match k
      case None =>
      case Some(i) => assert Some(i) !in configs;
    }
    assert configs.Keys == {None};
  }

  lemma NoneServed(ms: seq<AlsMessage>, n: nat, r: nat, s: nat, c: nat)
    requires AreThree(ms, n, r, s, c)
    ensures IsLastForAll(ms, c) && forall i :: !Served(ms, i)
  {
    assert forall m, i :: m in ms ==> !Brings(m, i);
  }
}
