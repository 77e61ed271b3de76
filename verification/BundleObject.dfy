/** The bundle object of the siphon: messages are put into it one at a time, and once
    assembled it is taken apart into what the database tables need
    (class AlsMessageBundle of als/als_siphon.py). */
module BundleObject {
  import opened Wrappers
  import opened KafkaOffsets
  import opened AlsBundle

  // A matched request and response with their ids blanked, the config and the expire time
  datatype RequestResponse = RequestResponse(request: Inquiry, response: Answer, config: AfcConfigInfo,
    expireTime: Option<int>)

  datatype StoreParts = StoreParts(
    afcServer: string, rxEnvelope: RequestDoc, txEnvelope: ResponseDoc, rxTimetag: int, txTimetag: int,
    requestResponses: map<string, RequestResponse>, orphanRequests: seq<Inquiry>, orphanResponses: seq<Answer>)

  // NotCaught is an exception that is not turned into a format error
  datatype FormatError = NoResponseList | NoResponseId | BadRequest | NotCaught

  // Responses by id; of several with one id the last stays
  function ById(answers: seq<Answer>): (m: map<ResponseId, Answer>)
    ensures forall id :: id in m ==> m[id].id == id && id != NoKey
    ensures forall a :: a in answers && a.id != NoKey ==> a.id in m
  {
    if answers == [] then map[] else
    var before := ById(answers[..|answers| - 1]);
    var last := answers[|answers| - 1];
    if last.id != NoKey then before[last.id := last] else before
  }

  predicate IsLastAnswer(answers: seq<Answer>, k: int, id: ResponseId) {
    0 <= k < |answers| && answers[k].id == id && forall j :: k < j < |answers| ==> answers[j].id != id
  }

  lemma {:induction false} ByIdIsLast(answers: seq<Answer>, k: int, id: ResponseId)
    requires IsLastAnswer(answers, k, id) && id != NoKey
    ensures id in ById(answers) && ById(answers)[id] == answers[k]
  {
    var n := |answers| - 1;
    if k < n {
      assert IsLastAnswer(answers[..n], k, id);
      ByIdIsLast(answers[..n], k, id);
    }
  }

  lemma {:induction false} LastAnswerOf(answers: seq<Answer>, id: ResponseId) returns (k: int)
    requires exists a :: a in answers && a.id == id
    ensures IsLastAnswer(answers, k, id)
  {
    k := |answers| - 1;
    while answers[k].id != id
      invariant 0 <= k < |answers| && forall j :: k < j < |answers| ==> answers[j].id != id
      decreases k
    {
      k := k - 1;
    }
  }

  lemma {:induction false} IdComesFrom(answers: seq<Answer>, id: ResponseId)
    requires id in ById(answers)
    ensures exists a :: a in answers && a.id == id
  {
    var n := |answers| - 1;
    if answers[n].id == id {
      assert answers[n] in answers;
    } else {
      IdComesFrom(answers[..n], id);
    }
  }

  // Request i is the one that takes the response with its id: the first request with that id
  predicate Takes(requests: seq<Inquiry>, answers: map<ResponseId, Answer>, i: nat)
    requires i < |requests|
  {
    && requests[i].id.Some? && Text(requests[i].id.value) in answers
    && forall j :: 0 <= j < i ==> requests[j].id != requests[i].id
  }

  // Of the first k requests, those that are left without a response, in their order
  function Orphans(requests: seq<Inquiry>, answers: map<ResponseId, Answer>, k: nat): seq<Inquiry>
    requires k <= |requests|
  {
    if k == 0 then [] else
    Orphans(requests, answers, k - 1) + if Takes(requests, answers, k - 1) then [] else [requests[k - 1]]
  }

  // The places of the requests without a response, in their order
  lemma {:induction false} OrphansInOrder(requests: seq<Inquiry>, answers: map<ResponseId, Answer>, k: nat)
    returns (at: seq<nat>)
    requires k <= |requests|
    ensures |at| == |Orphans(requests, answers, k)| && forall i, j :: 0 <= i < j < |at| ==> at[i] < at[j]
    ensures forall j :: 0 <= j < |at| ==> at[j] < k && Orphans(requests, answers, k)[j] == requests[at[j]]
    ensures forall i :: 0 <= i < k ==> (i in at <==> !Takes(requests, answers, i))
  {
    at := [];
    if k > 0 {
      at := OrphansInOrder(requests, answers, k - 1);
      hide Takes;
      if !Takes(requests, answers, k - 1) {
        at := at + [k - 1];
      }
    }
  }

  function Paired(request: Inquiry, answer: Answer, config: AfcConfigInfo): RequestResponse {
    RequestResponse(request.(id := Some("")),
                    answer.(id := Text(""), expire := if answer.expire.At? then Blank else answer.expire),
                    config, if answer.expire.At? then Some(answer.expire.time) else None)
  }

  function ConfigFor(configs: Configs, i: int): AfcConfigInfo
    requires Some(i) in configs || None in configs
  {
    if Some(i) in configs then configs[Some(i)] else configs[None]
  }

  predicate ReadableAt(requests: seq<Inquiry>, answers: map<ResponseId, Answer>, i: nat)
    requires i < |requests|
  {
    requests[i].id.Some? && (Takes(requests, answers, i) ==>
      var expire := answers[Text(requests[i].id.value)].expire; !expire.Malformed? && !expire.NotText?)
  }

  predicate SpoilsText(requests: seq<Inquiry>, answers: map<ResponseId, Answer>, i: nat)
    requires i < |requests|
  {
    Takes(requests, answers, i) && answers[Text(requests[i].id.value)].expire.NotText?
  }

  // Request i is the first one that makes take_apart raise, and the exception is not one that is
  // turned into a format error
  predicate BlowsUp(requests: seq<Inquiry>, answers: map<ResponseId, Answer>, i: nat) {
    i < |requests| && SpoilsText(requests, answers, i) && forall j :: 0 <= j < i ==> ReadableAt(requests, answers, j)
  }

  // Every list element has its id, and the expire times of taken responses are readable
  ghost predicate Readable(requests: seq<Inquiry>, answers: seq<Answer>) {
    && (forall a :: a in answers ==> a.id != NoKey)
    && (forall i :: 0 <= i < |requests| ==> ReadableAt(requests, ById(answers), i))
  }

  // Exactly when a bundle can be taken apart: every response has an id, every request one of text, and the
  // last response with the id of a request has an expire time that can be read, or none
  lemma ReadableExactly(requests: seq<Inquiry>, answers: seq<Answer>)
    ensures Readable(requests, answers) <==>
      && (forall k :: 0 <= k < |answers| ==> answers[k].id != NoKey)
      && (forall i :: 0 <= i < |requests| ==> requests[i].id.Some?)
      && (forall i, k :: 0 <= i < |requests| && IsLastAnswer(answers, k, Text(requests[i].id.value)) ==>
            answers[k].expire != Malformed && answers[k].expire != NotText)
  {
    forall i, k | 0 <= i < |requests| && requests[i].id.Some? && IsLastAnswer(answers, k, Text(requests[i].id.value))
      && Readable(requests, answers)
      ensures answers[k].expire != Malformed && answers[k].expire != NotText
    {
      var id := requests[i].id.value;
      assert AskedBefore(requests, id, i + 1);
      var j := FirstWith(requests, id, i + 1);
      ByIdIsLast(answers, k, Text(id));
      assert Takes(requests, ById(answers), j) && ReadableAt(requests, ById(answers), j);
    }
    forall i | 0 <= i < |requests| && Takes(requests, ById(answers), i)
      ensures var id := Text(requests[i].id.value);
        exists k :: IsLastAnswer(answers, k, id) && ById(answers)[id] == answers[k]
    {
      var id := Text(requests[i].id.value);
      IdComesFrom(answers, id);
      var k := LastAnswerOf(answers, id);
      ByIdIsLast(answers, k, id);
    }
    hide Takes, IsLastAnswer, ById;
    assert forall k :: 0 <= k < |answers| ==> answers[k] in answers;
    if forall i :: 0 <= i < |requests| ==> ReadableAt(requests, ById(answers), i) {
      assert forall i :: 0 <= i < |requests| ==> ReadableAt(requests, ById(answers), i) && requests[i].id.Some?;
    }
  }

  ghost predicate AskedBefore(requests: seq<Inquiry>, id: string, k: nat)
    requires k <= |requests|
  {
    exists i :: 0 <= i < k && requests[i].id == Some(id)
  }

  // The bodies of request and response, with their ids blanked and the expire time moved out
  predicate IsPairOf(pair: RequestResponse, request: Inquiry, answer: Answer) {
    && pair.request == Inquiry(Some(""), request.body)
    && pair.response.id == Text("") && pair.response.body == answer.body
    && (answer.expire.At? ==> pair.expireTime == Some(answer.expire.time) && pair.response.expire == Blank)
    && (!answer.expire.At? ==> pair.expireTime == None && pair.response.expire == answer.expire)
  }

  // Request i, if it takes a response, is paired with it, and with the config filed under its index or,
  // without one, under the catch-all
  ghost predicate PairedAt(requests: seq<Inquiry>, answers: map<ResponseId, Answer>, configs: Configs,
                           pairs: map<string, RequestResponse>, i: nat)
    requires i < |requests| && (Some(i) in configs || None in configs)
  {
    Takes(requests, answers, i) ==>
      var id := requests[i].id.value;
      && id in pairs && IsPairOf(pairs[id], requests[i], answers[Text(id)])
      && (Some(i) in configs ==> pairs[id].config == configs[Some(i)])
      && (Some(i) !in configs ==> pairs[id].config == configs[None])
  }

  predicate ConfigForEach(requests: seq<Inquiry>, configs: Configs) {
    forall i :: 0 <= i < |requests| ==> Some(i) in configs || None in configs
  }

  // Of the first k requests: who is matched, with whom and with which config, and who is not
  ghost predicate SortedOut(requests: seq<Inquiry>, answers: map<ResponseId, Answer>, configs: Configs,
                            pairs: map<string, RequestResponse>, orphans: seq<Inquiry>, k: nat)
    requires k <= |requests| && ConfigForEach(requests, configs)
  {
    && (forall i :: 0 <= i < k ==> PairedAt(requests, answers, configs, pairs, i))
    && (forall id :: id in pairs ==> Text(id) in answers && AskedBefore(requests, id, k))
    && orphans == Orphans(requests, answers, k)
    && |pairs| + |orphans| == k
  }

  function Texts(ids: set<string>): set<ResponseId> {
    set id | id in ids :: Text(id)
  }

  lemma {:induction false} SizeOfTexts(ids: set<string>)
    ensures |Texts(ids)| == |ids|
  {
    if ids != {} {
      var id :| id in ids;
      SizeOfTexts(ids - {id});
      assert Texts(ids) == Texts(ids - {id}) + {Text(id)};
    }
  }

  lemma TakesUnlessPaired(requests: seq<Inquiry>, answers: map<ResponseId, Answer>, configs: Configs,
                          pairs: map<string, RequestResponse>, orphans: seq<Inquiry>, k: nat)
    requires k < |requests| && requests[k].id.Some?
    requires ConfigForEach(requests, configs)
    requires SortedOut(requests, answers, configs, pairs, orphans, k)
    ensures Takes(requests, answers, k) <==> Text(requests[k].id.value) in answers.Keys - Texts(pairs.Keys)
  {
    var id := requests[k].id.value;
    if Text(id) in answers && !Takes(requests, answers, k) {
      var j := FirstWith(requests, id, k);
      assert Takes(requests, answers, j) && PairedAt(requests, answers, configs, pairs, j);
    }
  }

  lemma NothingSortedOut(requests: seq<Inquiry>, answers: map<ResponseId, Answer>, configs: Configs)
    requires ConfigForEach(requests, configs)
    ensures SortedOut(requests, answers, configs, map[], [], 0)
  {
  }

  lemma AskedStays(requests: seq<Inquiry>, pairs: map<string, RequestResponse>, k: nat)
    requires k < |requests| && forall id :: id in pairs ==> AskedBefore(requests, id, k)
    ensures forall id :: id in pairs ==> AskedBefore(requests, id, k + 1)
  {
    forall id | id in pairs
      ensures AskedBefore(requests, id, k + 1)
    {
      assert AskedBefore(requests, id, k);
    }
  }

  lemma PairedStays(requests: seq<Inquiry>, answers: map<ResponseId, Answer>, configs: Configs,
                    pairs: map<string, RequestResponse>, k: nat, rr: RequestResponse, i: nat)
    requires i < k < |requests| && ConfigForEach(requests, configs)
    requires PairedAt(requests, answers, configs, pairs, i) && Takes(requests, answers, k)
    ensures PairedAt(requests, answers, configs, pairs[requests[k].id.value := rr], i)
  {
    assert requests[i].id != requests[k].id;
  }

  lemma MatchOneMore(requests: seq<Inquiry>, answers: map<ResponseId, Answer>, configs: Configs,
                     pairs: map<string, RequestResponse>, orphans: seq<Inquiry>, k: nat, rr: RequestResponse)
    requires k < |requests| && ConfigForEach(requests, configs)
    requires SortedOut(requests, answers, configs, pairs, orphans, k)
    requires Takes(requests, answers, k)
    requires rr == Paired(requests[k], answers[Text(requests[k].id.value)], ConfigFor(configs, k))
    ensures SortedOut(requests, answers, configs, pairs[requests[k].id.value := rr], orphans, k + 1)
  {
    TakesUnlessPaired(requests, answers, configs, pairs, orphans, k);
    AskedStays(requests, pairs, k);
    var id := requests[k].id.value;
    assert AskedBefore(requests, id, k + 1);
    assert orphans + [] == orphans;
    var pairs' := pairs[id := rr];
    forall i | 0 <= i < k + 1
      ensures PairedAt(requests, answers, configs, pairs', i)
    {
      if i < k {
        PairedStays(requests, answers, configs, pairs, k, rr, i);
      }
    }
    hide Paired, ConfigFor, Takes, PairedAt, AskedBefore;
  }

  lemma LeaveOneMore(requests: seq<Inquiry>, answers: map<ResponseId, Answer>, configs: Configs,
                     pairs: map<string, RequestResponse>, orphans: seq<Inquiry>, k: nat)
    requires k < |requests| && ConfigForEach(requests, configs)
    requires SortedOut(requests, answers, configs, pairs, orphans, k)
    requires !Takes(requests, answers, k)
    ensures SortedOut(requests, answers, configs, pairs, orphans + [requests[k]], k + 1)
  {
    hide Paired, ConfigFor;
    AskedStays(requests, pairs, k);
  }

  lemma {:induction false} FirstWith(requests: seq<Inquiry>, id: string, k: nat) returns (j: nat)
    requires k <= |requests| && AskedBefore(requests, id, k)
    ensures j < k && requests[j].id == Some(id) && forall i :: 0 <= i < j ==> requests[i].id != Some(id)
  {
    j :| j < k && requests[j].id == Some(id);
    if AskedBefore(requests, id, j) {
      j := FirstWith(requests, id, j);
    }
  }

  // What the responses that nobody took come to
  ghost predicate LeftOver(answers: map<ResponseId, Answer>, taken: set<ResponseId>, orphans: seq<Answer>) {
    && (forall a :: a in orphans ==> a.id in answers && a.id !in taken && answers[a.id] == a)
    && (forall id :: id in answers && id !in taken ==> answers[id] in orphans)
  }

  // The parts an assembled bundle comes apart into
  ghost predicate PartsOf(b: Bundle, parts: StoreParts)
    requires b.assembled && Covered(b) && b.response.value.responses.Some?
  {
    var requests, answers := b.request.value.requests.value, ById(b.response.value.responses.value);
    && ConfigForEach(requests, b.configs)
    && parts.afcServer == b.afcServer && parts.rxTimetag == b.requestTimetag && parts.txTimetag == b.responseTimetag
    && parts.rxEnvelope == b.request.value.(requests := Some([]))
    && parts.txEnvelope == b.response.value.(responses := Some([]))
    && SortedOut(requests, answers, b.configs, parts.requestResponses, parts.orphanRequests, |requests|)
    && LeftOver(answers, Texts(parts.requestResponses.Keys), parts.orphanResponses)
    && |parts.requestResponses| + |parts.orphanResponses| == |answers|
  }

  ghost predicate CanBeTakenApart(b: Bundle)
    requires b.assembled && Covered(b)
  {
    b.response.value.responses.Some? && Readable(b.request.value.requests.value, b.response.value.responses.value)
  }

  // Taking it apart raises an exception that ends the siphon
  ghost predicate EndsSiphon(b: Bundle)
    requires b.assembled && Covered(b)
  {
    b.response.value.responses.Some? && IsNotCaught(b.request.value.requests.value, b.response.value.responses.value)
  }

  ghost predicate IsNotCaught(requests: seq<Inquiry>, answers: seq<Answer>) {
    (forall a :: a in answers ==> a.id != NoKey) && exists i: nat :: BlowsUp(requests, ById(answers), i)
  }

  // With all requests before it readable, the first request that takes a response with a bad expire time
  // decides: if that is not text, the exception is not caught; if it is text that cannot be read, it is.
  lemma FirstBadDecides(requests: seq<Inquiry>, answers: seq<Answer>, i: nat, k: int)
    requires i < |requests| && Readable(requests[..i], answers) && requests[i].id.Some?
    requires forall j :: 0 <= j < i ==> requests[j].id != requests[i].id
    requires IsLastAnswer(answers, k, Text(requests[i].id.value))
    requires answers[k].expire == NotText || answers[k].expire == Malformed
    ensures IsNotCaught(requests, answers) <==> answers[k].expire == NotText
  {
    ByIdIsLast(answers, k, Text(requests[i].id.value));
    forall j | 0 <= j < i
      ensures ReadableAt(requests, ById(answers), j)
    {
      assert ReadableAt(requests[..i], ById(answers), j);
      assert Takes(requests[..i], ById(answers), j) <==> Takes(requests, ById(answers), j);
    }
    hide ById, IsLastAnswer;
    StopsAt(requests, ById(answers), i);
  }

  // Both lists moved out of the messages
  function Emptied(b: Bundle): Bundle
    requires b.request.Some? && b.response.Some?
  {
    b.(request := Some(b.request.value.(requests := Some([]))),
      response := Some(b.response.value.(responses := Some([]))))
  }

  lemma ConfigsAreThere(b: Bundle)
    requires b.assembled && Covered(b)
    ensures b.request.Some? && b.request.value.requests.Some? && b.response.Some?
    ensures ConfigForEach(b.request.value.requests.value, b.configs)
  {
  }

  method SortOut(requests: seq<Inquiry>, answers: seq<Answer>, configs: Configs)
    returns (error: Option<FormatError>, pairs: map<string, RequestResponse>, orphans: seq<Inquiry>, left: seq<Answer>)
    requires ConfigForEach(requests, configs)
    ensures error.None? <==> Readable(requests, answers)
    ensures error == Some(NotCaught) <==> IsNotCaught(requests, answers)
    ensures error.None? ==>
      && SortedOut(requests, ById(answers), configs, pairs, orphans, |requests|)
      && LeftOver(ById(answers), Texts(pairs.Keys), left)
      && |pairs| + |left| == |ById(answers)|
  {
    pairs, orphans, left := map[], [], [];
    var byId := MapResponses(answers);
    if byId.None? {
      return Some(NoResponseId), pairs, orphans, left;
    }
    var rest;
    error, pairs, orphans, rest := MatchRequests(requests, byId.value, configs);
    if error.Some? {
      return;
    }
    left := CollectLeft(rest);
    PairsAreOfResponses(requests, byId.value, configs, pairs, orphans);
    SizeOfTexts(pairs.Keys);
    assert rest.Keys == byId.value.Keys - Texts(pairs.Keys);
    assert |byId.value.Keys| == |rest.Keys| + |Texts(pairs.Keys)|;
  }

  lemma PairsAreOfResponses(requests: seq<Inquiry>, answers: map<ResponseId, Answer>, configs: Configs,
                            pairs: map<string, RequestResponse>, orphans: seq<Inquiry>)
    requires ConfigForEach(requests, configs)
    requires SortedOut(requests, answers, configs, pairs, orphans, |requests|)
    ensures Texts(pairs.Keys) <= answers.Keys
  {
  }

  method MapResponses(answers: seq<Answer>) returns (r: Option<map<ResponseId, Answer>>)
    ensures r.Some? <==> forall a :: a in answers ==> a.id != NoKey
    ensures r.Some? ==> r.value == ById(answers)
    ensures r.Some? ==> forall k :: 0 <= k < |answers| ==> answers[k].id in r.value
    ensures r.Some? ==> forall id :: id in r.value ==>
      exists k :: IsLastAnswer(answers, k, id) && r.value[id] == answers[k]
  {
    var responseMap: map<ResponseId, Answer> := map[];
    for i := 0 to |answers|
      invariant responseMap == ById(answers[..i])
      invariant forall j :: 0 <= j < i ==> answers[j].id != NoKey
    {
      if answers[i].id == NoKey {
        return None;
      }
      assert answers[..i + 1][..i] == answers[..i];
      responseMap := responseMap[answers[i].id := answers[i]];
    }
    assert answers[..|answers|] == answers;
    forall id | id in responseMap
      ensures exists k :: IsLastAnswer(answers, k, id) && responseMap[id] == answers[k]
    {
      IdComesFrom(answers, id);
      var k := LastAnswerOf(answers, id);
      ByIdIsLast(answers, k, id);
    }
    r := Some(responseMap);
  }

  method MatchRequests(requests: seq<Inquiry>, answers: map<ResponseId, Answer>, configs: Configs)
    returns (error: Option<FormatError>, pairs: map<string, RequestResponse>, orphans: seq<Inquiry>,
      left: map<ResponseId, Answer>)
    requires ConfigForEach(requests, configs)
    ensures error.None? <==> forall i :: 0 <= i < |requests| ==> ReadableAt(requests, answers, i)
    ensures error == Some(NotCaught) <==> exists i: nat :: BlowsUp(requests, answers, i)
    ensures error.None? ==> SortedOut(requests, answers, configs, pairs, orphans, |requests|)
    ensures error.None? ==> left == answers - Texts(pairs.Keys)
  {
    hide SortedOut, BlowsUp, ReadableAt, SpoilsText;
    pairs, orphans, left := map[], [], answers;
    NothingSortedOut(requests, answers, configs);
    for k := 0 to |requests|
      invariant forall i :: 0 <= i < k ==> ReadableAt(requests, answers, i)
      invariant SortedOut(requests, answers, configs, pairs, orphans, k)
      invariant left == answers - Texts(pairs.Keys)
    {
      StopsAt(requests, answers, k);
      error, pairs, orphans, left := MatchOne(requests, answers, configs, k, pairs, orphans, left);
      if error.Some? {
        return;
      }
    }
    NoneBlowsUp(requests, answers);
    error := None;
  }

  // One turn of the loop of MatchRequests
  method MatchOne(requests: seq<Inquiry>, ghost answers: map<ResponseId, Answer>, configs: Configs, k: nat,
                  pairs: map<string, RequestResponse>, orphans: seq<Inquiry>, left: map<ResponseId, Answer>)
    returns (error: Option<FormatError>, pairs': map<string, RequestResponse>, orphans': seq<Inquiry>,
      left': map<ResponseId, Answer>)
    requires k < |requests| && ConfigForEach(requests, configs)
    requires SortedOut(requests, answers, configs, pairs, orphans, k) && left == answers - Texts(pairs.Keys)
    ensures error.None? <==> ReadableAt(requests, answers, k)
    ensures error == Some(NotCaught) <==> SpoilsText(requests, answers, k)
    ensures error.None? ==>
      SortedOut(requests, answers, configs, pairs', orphans', k + 1) && left' == answers - Texts(pairs'.Keys)
  {
    hide SortedOut, Paired, Takes, Texts;
    pairs', orphans', left' := pairs, orphans, left;
    var request := requests[k];
    if request.id.None? {
      NoIdTakesNothing(requests, answers, k);
      return Some(BadRequest), pairs', orphans', left';
    }
    var id := request.id.value;
    TakesUnlessPaired(requests, answers, configs, pairs, orphans, k);
    if Text(id) !in left {
      LeaveOneMore(requests, answers, configs, pairs, orphans, k);
      orphans' := orphans + [request];
      return None, pairs', orphans', left';
    }
    var answer := left[Text(id)];
    left' := left - {Text(id)};
    if answer.expire.NotText? {
      return Some(NotCaught), pairs', orphans', left';
    }
    if answer.expire.Malformed? {
      return Some(BadRequest), pairs', orphans', left';
    }
    var rr := Paired(request, answer, ConfigFor(configs, k));
    MatchOneMore(requests, answers, configs, pairs, orphans, k, rr);
    OneMoreText(pairs.Keys, id);
    pairs' := pairs[id := rr];
    assert pairs'.Keys == pairs.Keys + {id};
    error := None;
  }

  lemma OneMoreText(ids: set<string>, id: string)
    ensures Texts(ids + {id}) == Texts(ids) + {Text(id)}
  {
  }

  lemma NoIdTakesNothing(requests: seq<Inquiry>, answers: map<ResponseId, Answer>, k: nat)
    requires k < |requests| && requests[k].id.None?
    ensures !Takes(requests, answers, k)
  {
  }

  // If all requests before it can be read: what it means that request k cannot
  lemma StopsAt(requests: seq<Inquiry>, answers: map<ResponseId, Answer>, k: nat)
    requires k < |requests| && forall i :: 0 <= i < k ==> ReadableAt(requests, answers, i)
    ensures !ReadableAt(requests, answers, k) ==>
      ((exists i: nat :: BlowsUp(requests, answers, i)) <==> SpoilsText(requests, answers, k))
    ensures !ReadableAt(requests, answers, k) <==>
      requests[k].id.None? || SpoilsText(requests, answers, k)
        || (Takes(requests, answers, k) && answers[Text(requests[k].id.value)].expire.Malformed?)
  {
    hide Takes;
    if !ReadableAt(requests, answers, k) {
      assert SpoilsText(requests, answers, k) ==> BlowsUp(requests, answers, k);
      forall i: nat | BlowsUp(requests, answers, i)
        ensures i == k
      {
        assert i < k ==> ReadableAt(requests, answers, i);
      }
    }
  }

  lemma NoneBlowsUp(requests: seq<Inquiry>, answers: map<ResponseId, Answer>)
    requires forall i :: 0 <= i < |requests| ==> ReadableAt(requests, answers, i)
    ensures !exists i: nat :: BlowsUp(requests, answers, i)
  {
    hide Takes;
    forall i | 0 <= i < |requests|
      ensures !BlowsUp(requests, answers, i)
    {
      assert ReadableAt(requests, answers, i);
    }
  }

  method CollectLeft(left: map<ResponseId, Answer>) returns (orphans: seq<Answer>)
    requires forall id :: id in left ==> left[id].id == id
    ensures LeftOver(left, {}, orphans) && |orphans| == |left|
  {
    orphans := [];
    var pending := left.Keys;
    while pending != {}
      invariant pending <= left.Keys
      invariant LeftOver(left, pending, orphans) && |orphans| + |pending| == |left.Keys|
      decreases pending
    {
      var id := Pick(pending);
      pending := pending - {id};
      orphans := orphans + [left[id]];
    }
  }

  class AlsMessageBundle {
    const messageKey: string
    var afcServer: string
    var lastUpdate: int
    var requestMsg: Option<RequestDoc>
    var requestTimetag: int
    var responseMsg: Option<ResponseDoc>
    var responseTimetag: int
    var configs: Configs
    var assembled: bool
    var storeParts: Option<StoreParts>
    var positions: set<KafkaPosition>

    ghost function View(): Bundle
      reads this
    {
      Bundle(afcServer, lastUpdate, requestMsg, requestTimetag, responseMsg, responseTimetag, configs, assembled,
        positions)
    }

    // Until it is taken apart, an assembled bundle has a config for each of its requests
    ghost predicate Valid()
      reads this
    {
      storeParts.None? ==> Covered(View())
    }

    constructor (messageKey: string, now: int)
      ensures Valid() && this.messageKey == messageKey && View() == EmptyBundle(now) && storeParts.None?
    {
      this.messageKey := messageKey;
      afcServer, lastUpdate := "", now;
      requestMsg, requestTimetag := None, 0;
      responseMsg, responseTimetag := None, 0;
      configs, assembled, storeParts, positions := map[], false, None, {};
    }

    method Update(message: AlsMessage, position: KafkaPosition, now: int) returns (outcome: Outcome)
      requires Valid() && storeParts.None?
      modifies this
      ensures Valid() && storeParts.None?
      ensures (View(), outcome) == Updated(old(View()), message, position, now)
    {
      hide Covered, Filed, IndexesFit;
      StepKeepsCovered(View(), Arrival(message, position, now));
      lastUpdate := now;
      if assembled {
        return Ignored;
      }
      afcServer := message.afcServer;
      match message.content {
        case Request(r) =>
          if requestMsg.Some? {
            return Ignored;
          }
          if r.None? {
            return Rejected;
          }
          requestMsg, requestTimetag := r, message.timeTag;
        case Response(r) =>
          if responseMsg.Some? {
            return Ignored;
          }
          if r.None? {
            return Rejected;
          }
          responseMsg, responseTimetag := r.value, message.timeTag;
        case Config(info, indexes) =>
          FileConfig(info, indexes);
      }
      if !CheckConfigIndexes() {
        return Rejected;
      }
      assembled := requestMsg.Some? && responseMsg.Some? && configs != map[] &&
        (None in configs || RequestCountIs(|configs|));
      positions := positions + {position};
      outcome := Accepted;
    }

    // request_count(), for a bundle that has a readable list of requests
    function RequestsInside(): (n: nat)
      requires requestMsg.Some? && requestMsg.value.requests.Some?
      reads this
      ensures RequestCount(View()) == Some(n)
    {
      |requestMsg.value.requests.value|
    }

    method FileConfig(info: AfcConfigInfo, indexes: set<int>)
      modifies this`configs
      ensures configs == Filed(old(configs), info, indexes)
    {
      if indexes == {} {
        configs := configs[None := info];
        return;
      }
      var pending := indexes;
      while pending != {}
        invariant pending <= indexes
        invariant configs == old(configs) + map k | k in IndexKeys(indexes - pending) :: info
        decreases pending
      {
        var i := Pick(pending);
        pending := pending - {i};
        configs := configs[Some(i) := info];
      }
      assert indexes - {} == indexes;
    }

    // False where the code raises for a config of a request that is not there
    predicate CheckConfigIndexes()
      reads this
      ensures CheckConfigIndexes() == IndexesFit(View())
    {
      requestMsg.None? || configs == map[] ||
      (requestMsg.value.requests.Some? &&
       forall k :: k in configs ==> k.None? || 0 <= k.value < |requestMsg.value.requests.value|)
    }

    predicate RequestCountIs(n: nat)
      reads this
    {
      requestMsg.Some? && requestMsg.value.requests.Some? && |requestMsg.value.requests.value| == n
    }

    // The lists of requests and responses are moved out of the messages, so that the bundle
    // cannot count its requests any more. If the code raises, what it has built so far stays
    // in 'storeParts', and would be the result of another call.
    method TakeApart() returns (r: Result<StoreParts, FormatError>)
      requires Valid() && assembled
      modifies this`storeParts, this`requestMsg, this`responseMsg
      ensures Valid() && storeParts.Some?
      ensures old(storeParts).Some? ==> r == Success(old(storeParts).value) && View() == old(View())
      ensures old(storeParts).None? ==> (r.Success? <==> CanBeTakenApart(old(View())))
      ensures old(storeParts).None? ==> (r == Failure(NotCaught) <==> EndsSiphon(old(View())))
      ensures old(storeParts).None? && r.Success? ==> PartsOf(old(View()), r.value) && storeParts == Some(r.value)
      ensures old(storeParts).None? ==>
        View() == if old(View()).response.value.responses.Some? then Emptied(old(View())) else old(View())
    {
      hide SortedOut, LeftOver, Readable, IsNotCaught, Covered, ById, ConfigForEach;
      if storeParts.Some? {
        return Success(storeParts.value);
      }
      ConfigsAreThere(View());
      var request, response := requestMsg.value, responseMsg.value;
      storeParts := Some(StoreParts(afcServer, request, response, requestTimetag, responseTimetag, map[], [], []));
      if response.responses.None? {
        return Failure(NoResponseList);
      }
      var requests, answers := request.requests.value, response.responses.value;
      requestMsg := Some(request.(requests := Some([])));
      responseMsg := Some(response.(responses := Some([])));
      var error, pairs, orphans, left := SortOut(requests, answers, configs);
      storeParts := Some(storeParts.value.(rxEnvelope := requestMsg.value, txEnvelope := responseMsg.value,
        requestResponses := pairs, orphanRequests := orphans, orphanResponses := left));
      r := if error.Some? then Failure(error.value) else Success(storeParts.value);
    }
  }
}
