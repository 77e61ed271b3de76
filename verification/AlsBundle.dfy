/** Assembly of one AFC request bundle out of its Request, Response and Config messages
    (class AlsMessageBundle of als/als_siphon.py): the values, what one message does to a
    bundle, and what whole sequences of messages do. Messages are given as already decoded
    JSON; what the code checks about that JSON is kept as part of the values. */
module AlsBundle {
  import opened Wrappers
  import opened KafkaOffsets

  // An element of the request list; None when it has no textual 'requestId'
  datatype Inquiry = Inquiry(id: Option<string>, body: string)

  // Expire time of a response; it is blanked when it is moved to a column of its own
  datatype ExpireTime = Absent | At(time: int) | Malformed | NotText | Blank

  // The 'requestId' of a response: text, or something else that may be a key of a dictionary; NoKey
  // when it is missing or may not
  datatype ResponseId = NoKey | Text(text: string) | Other(value: int)

  // An element of the response list
  datatype Answer = Answer(id: ResponseId, expire: ExpireTime, body: string)

  // Request and response dictionaries; None when the list is missing or is not a list
  datatype RequestDoc = RequestDoc(requests: Option<seq<Inquiry>>, envelope: string)
  datatype ResponseDoc = ResponseDoc(responses: Option<seq<Answer>>, envelope: string)

  datatype AfcConfigInfo = AfcConfigInfo(configStr: string, customer: string, geoDataId: string, ulsId: string)

  // Content of a message. A request is None when it does not decode to a dictionary. A
  // response is None when it does not decode, and Some(None) when it decodes to null.
  datatype Content =
    | Request(request: Option<RequestDoc>)
    | Response(response: Option<Option<ResponseDoc>>)
    | Config(info: AfcConfigInfo, indexes: set<int>)

  datatype AlsMessage = AlsMessage(afcServer: string, timeTag: int, content: Content)

  // Configs are filed by index of individual request, or under None when for all of them
  type Configs = map<Option<int>, AfcConfigInfo>

  datatype Bundle = Bundle(
    afcServer: string, lastUpdate: int,
    request: Option<RequestDoc>, requestTimetag: int,
    response: Option<ResponseDoc>, responseTimetag: int,
    configs: Configs, assembled: bool, positions: set<KafkaPosition>)

  function EmptyBundle(now: int): Bundle {
    Bundle("", now, None, 0, None, 0, map[], false, {})
  }

  datatype Outcome = Accepted | Ignored | Rejected

  function RequestCount(b: Bundle): Option<nat> {
    if b.request.Some? && b.request.value.requests.Some? then Some(|b.request.value.requests.value|) else None
  }

  function IndexKeys(indexes: set<int>): set<Option<int>> {
    set i | i in indexes :: Some(i)
  }

  function Filed(configs: Configs, info: AfcConfigInfo, indexes: set<int>): Configs {
    if indexes == {} then configs[None := info] else configs + map k | k in IndexKeys(indexes) :: info
  }

  // The index check has nothing to object to
  predicate IndexesFit(b: Bundle) {
    b.request.Some? && b.configs != map[] ==>
      RequestCount(b).Some? && forall k :: k in b.configs && k.Some? ==> 0 <= k.value < RequestCount(b).value
  }

  predicate Complete(b: Bundle) {
    && b.request.Some? && b.response.Some? && b.configs != map[]
    && (None in b.configs || (RequestCount(b).Some? && |b.configs| == RequestCount(b).value))
  }

  // A repeated message, or one of unreadable content, is not put into the bundle
  function Screen(b: Bundle, content: Content): Outcome {
    match content
    case Request(r) => if b.request.Some? then Ignored else if r.None? then Rejected else Accepted
    case Response(r) => if b.response.Some? then Ignored else if r.None? then Rejected else Accepted
    case Config(_, _) => Accepted
  }

  function PutIn(b: Bundle, m: AlsMessage): Bundle
    requires Screen(b, m.content) == Accepted
  {
    match m.content
    case Request(r) => b.(request := r, requestTimetag := m.timeTag)
    case Response(r) => b.(response := r.value, responseTimetag := m.timeTag)
    case Config(info, indexes) => b.(configs := Filed(b.configs, info, indexes))
  }

  // What one message does. A message that fails the index check has already been put in.
  function Updated(b: Bundle, m: AlsMessage, position: KafkaPosition, now: int): (Bundle, Outcome) {
    var b := b.(lastUpdate := now);
    if b.assembled then (b, Ignored) else
    var b := b.(afcServer := m.afcServer);
    var screened := Screen(b, m.content);
    if screened != Accepted then (b, screened) else
    var b := PutIn(b, m);
    if !IndexesFit(b) then (b, Rejected) else
    (b.(assembled := Complete(b), positions := b.positions + {position}), Accepted)
  }

  datatype Arrival = Arrival(message: AlsMessage, position: KafkaPosition, now: int)

  function Step(b: Bundle, a: Arrival): (Bundle, Outcome) {
    Updated(b, a.message, a.position, a.now)
  }

  function Fed(b: Bundle, feed: seq<Arrival>): Bundle {
    if feed == [] then b else Step(Fed(b, feed[..|feed| - 1]), feed[|feed| - 1]).0
  }

  // ---- An assembled bundle has a config for each of its requests ----

  function UpTo(n: nat): (r: set<Option<int>>)
    ensures |r| == n
    ensures forall k :: k in r <==> k.Some? && 0 <= k.value < n
  {
    if n == 0 then {} else UpTo(n - 1) + {Some(n - 1)}
  }

  lemma {:induction false} SubsetOfSameSize<T>(a: set<T>, b: set<T>)
    requires a <= b && |a| == |b|
    ensures a == b
  {
    if a != {} {
      var x :| x in a;
      SubsetOfSameSize(a - {x}, b - {x});
    }
  }

  ghost predicate Covered(b: Bundle) {
    b.assembled ==>
      && b.request.Some? && RequestCount(b).Some? && b.response.Some?
      && (forall k :: k in b.configs && k.Some? ==> 0 <= k.value < RequestCount(b).value)
      && (None in b.configs || b.configs.Keys == UpTo(RequestCount(b).value))
  }

  lemma {:induction false} StepKeepsCovered(b: Bundle, a: Arrival)
    requires Covered(b)
    ensures Covered(Step(b, a).0)
  {
    var b' := Step(b, a).0;
    if b'.assembled && !b.assembled && None !in b'.configs {
      var n := RequestCount(b').value;
      assert |b'.configs.Keys| == n;
      assert b'.configs.Keys <= UpTo(n);
      SubsetOfSameSize(b'.configs.Keys, UpTo(n));
    }
  }

  // Whatever messages came, accepted or not: once assembled, the configs are either for
  // all requests, or are there for exactly the requests that the bundle has.
  lemma {:induction false} AssembledIsCovered(now: int, feed: seq<Arrival>)
    ensures Covered(Fed(EmptyBundle(now), feed))
  {
    if feed != [] {
      AssembledIsCovered(now, feed[..|feed| - 1]);
      StepKeepsCovered(Fed(EmptyBundle(now), feed[..|feed| - 1]), feed[|feed| - 1]);
    }
  }

  // ---- An assembled bundle holds nothing but accepted messages ----

  function AcceptedOf(b: Bundle, feed: seq<Arrival>): seq<Arrival> {
    if feed == [] then [] else
    var before := feed[..|feed| - 1];
    var last := feed[|feed| - 1];
    AcceptedOf(b, before) + if Step(Fed(b, before), last).1 == Accepted then [last] else []
  }

  // What of a bundle goes to the database, besides the server name
  predicate SameContents(a: Bundle, b: Bundle) {
    && a.request == b.request && a.requestTimetag == b.requestTimetag
    && a.response == b.response && a.responseTimetag == b.responseTimetag
    && a.configs == b.configs && a.assembled == b.assembled && a.positions == b.positions
  }

  // An unusable bundle fails the index check whatever is put in, and is never assembled
  predicate Unusable(b: Bundle) {
    !b.assembled && !IndexesFit(b)
  }

  lemma UnusableForGood(b: Bundle, a: Arrival)
    requires Unusable(b)
    ensures Unusable(Step(b, a).0) && Step(b, a).1 != Accepted
  {
    var k :| RequestCount(b).None? || (k in b.configs && k.Some? && !(0 <= k.value < RequestCount(b).value));
    var b' := Step(b, a).0;
    assert RequestCount(b').Some? ==> k in b'.configs;
  }

  lemma StepTracksAccepted(b: Bundle, kept: Bundle, a: Arrival)
    requires SameContents(b, kept)
    ensures var (b', outcome) := Step(b, a);
      if outcome == Accepted then SameContents(b', Step(kept, a).0) && Step(kept, a).1 == Accepted
      else Unusable(b') || SameContents(b', kept)
  {
  }

  lemma {:induction false} TracksAccepted(b: Bundle, feed: seq<Arrival>)
    ensures Unusable(Fed(b, feed)) || SameContents(Fed(b, feed), Fed(b, AcceptedOf(b, feed)))
  {
    if feed != [] {
      var before := feed[..|feed| - 1];
      var last := feed[|feed| - 1];
      TracksAccepted(b, before);
      var kept := AcceptedOf(b, before);
      if Unusable(Fed(b, before)) {
        UnusableForGood(Fed(b, before), last);
      } else {
        StepTracksAccepted(Fed(b, before), Fed(b, kept), last);
        assert (kept + [last])[..|kept|] == kept && kept + [] == kept;
        assert Fed(b, kept + [last]) == Step(Fed(b, kept), last).0;
      }
    }
  }

  function PositionsOf(feed: seq<Arrival>): set<KafkaPosition> {
    set a | a in feed :: a.position
  }

  lemma {:induction false} PositionsAreOfAccepted(b: Bundle, feed: seq<Arrival>)
    ensures Fed(b, feed).positions == b.positions + PositionsOf(AcceptedOf(b, feed))
  {
    if feed != [] {
      PositionsAreOfAccepted(b, feed[..|feed| - 1]);
    }
  }

  // Once assembled, a bundle is what its accepted messages alone would have made, and the
  // positions it will report as processed are exactly the positions of those messages.
  lemma {:induction false} AssembledFromAccepted(now: int, feed: seq<Arrival>)
    requires Fed(EmptyBundle(now), feed).assembled
    ensures var accepted := AcceptedOf(EmptyBundle(now), feed);
      && SameContents(Fed(EmptyBundle(now), feed), Fed(EmptyBundle(now), accepted))
      && Fed(EmptyBundle(now), feed).positions == PositionsOf(accepted)
  {
    TracksAccepted(EmptyBundle(now), feed);
    PositionsAreOfAccepted(EmptyBundle(now), feed);
  }
}
