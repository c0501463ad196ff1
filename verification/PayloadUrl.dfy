/**
 Resolving payload URLs, after internal/api/url_payload.go: reserve for the longest download, fetch, keep what came.
 What a server answers is a parameter; what other requests do to the shared budget during a download is another.
 */
module PayloadUrl {
  import opened Common
  import opened RequestBudget
  import Base64
  import Utf8

  /** A server's answer: some bytes, or no usable answer. */
  datatype Response = Body(data: seq<byte>) | Broken

  datatype DownloadError = TooLarge | NotFetched

  datatype ResolveError = Conflict | BadURL | OverBudget | OverTotal | Download(error: DownloadError) | NotUtf8

  datatype Source = Source(name: seq<byte>, dataB64: seq<byte>, dataURL: seq<byte>)

  class PayloadBudget {
    var remaining: int

    constructor (remaining: int)
      ensures this.remaining == remaining
    {
      this.remaining := remaining;
    }
  }

  predicate Blank(url: seq<byte>) {
    forall i :: 0 <= i < |url| ==> url[i] in {9, 10, 11, 12, 13, 32}
  }

  function Fetch(url: seq<byte>, maxBytes: nat, valid: seq<byte> -> bool, response: Response)
    : Result<seq<byte>, DownloadError>
  {
    if !valid(url) || response.Broken? then Err(NotFetched)
    else if |response.data| > maxBytes then Err(TooLarge)
    else Ok(response.data)
  }

  function DownloadLimit(maxBytes: nat, remaining: int): nat {
    if remaining < maxBytes then if remaining < 0 then 0 else remaining else maxBytes
  }

  /** How a source with a URL fares once its reservation is granted. */
  function Downloaded(url: seq<byte>, maxBytes: nat, remaining: int, valid: seq<byte> -> bool, response: Response)
    : Result<seq<byte>, ResolveError>
  {
    var limit := DownloadLimit(maxBytes, remaining);
    match Fetch(url, limit, valid, response)
    case Err(error) => if limit < maxBytes && error == TooLarge then Err(OverTotal) else Err(Download(error))
    case Ok(data) => if |data| > remaining then Err(OverTotal) else Ok(data)
  }

  /** What replaces a source, None when it has no URL. */
  function Outcome(s: Source, maxBytes: nat, remaining: int, granted: bool, valid: seq<byte> -> bool,
    response: Response)
    : Result<Option<seq<byte>>, ResolveError>
  {
    if Blank(s.dataURL) then Ok(None)
    else if s.dataB64 != [] then Err(Conflict)
    else if !granted then Err(OverBudget)
    else match Downloaded(s.dataURL, maxBytes, remaining, valid, response)
      case Err(error) => Err(error)
      case Ok(data) => Ok(Some(data))
  }

  /** The granted download is at most the smaller of the two limits, and is refused exactly when it is not. */
  lemma {:induction false} DownloadedIffFits(url: seq<byte>, maxBytes: nat, remaining: int, valid: seq<byte> -> bool,
    response: Response)
    ensures Downloaded(url, maxBytes, remaining, valid, response).Ok? <==>
            valid(url) && response.Body? && |response.data| <= maxBytes && |response.data| <= remaining
  {
  }

  function Resolved(s: Source, o: Result<Option<seq<byte>>, ResolveError>): Source {
    if o.Ok? && o.value.Some? then s.(dataB64 := Base64.Encode(o.value.value), dataURL := []) else s
  }

  function Footprint(reservation: Reservation?): set<object> {
    if reservation == null then {} else {reservation, reservation.budget}
  }

  function AccountOf(reservation: Reservation?): Option<Account>
    reads reservation, if reservation == null then {} else {reservation.budget}
  {
    if reservation == null then None else Some(reservation.Now())
  }

  function LimitOf(reservation: Reservation?): int {
    if reservation == null then 0 else reservation.budget.limit
  }

  /** A request without a reservation is never refused. */
  predicate Grants(account: Option<Account>, limit: int, maximum: int) {
    account.None? || Reserved(account.value, limit, maximum).Some?
  }

  /** Whether there was a download for other requests to run beside. */
  predicate Waits(s: Source, o: Result<Option<seq<byte>>, ResolveError>) {
    !Blank(s.dataURL) && s.dataB64 == [] && o != Err(OverBudget)
  }

  /** The account once this request keeps more bytes, and the others have moved the total by theirs. */
  function Charged(a: Account, more: int, others: int): Account {
    Account(a.used + more + others, a.held + more)
  }

  function ChargedTo(account: Option<Account>, more: int, others: int): Option<Account> {
    if account.None? then None else Some(Charged(account.value, more, others))
  }

  /** Reserves for a download, during which the others move the total. */
  method ReservePayloadBytes(reservation: Reservation?, maximum: int, others: int) returns (granted: bool)
    modifies Footprint(reservation)
    ensures granted == Grants(old(AccountOf(reservation)), LimitOf(reservation), maximum)
    ensures AccountOf(reservation) == if granted then ChargedTo(old(AccountOf(reservation)), maximum, others)
      else old(AccountOf(reservation))
  {
    if reservation == null { return true; }
    granted := reservation.Reserve(maximum);
    if granted { reservation.budget.used := reservation.budget.used + others; }
  }

  method FinishReservation(reservation: Reservation?, maximum: int, actual: int)
    requires 0 <= actual <= maximum
    modifies Footprint(reservation)
    ensures AccountOf(reservation) == ChargedTo(old(AccountOf(reservation)), actual - maximum, 0)
  {
    if reservation != null { reservation.Finish(maximum, actual); }
  }

  /** The download itself: a body over the limit is over the total when the total is what set the limit. */
  method DownloadWithin(url: seq<byte>, maxBytes: nat, budget: PayloadBudget, valid: seq<byte> -> bool,
    response: Response)
    returns (data: Result<seq<byte>, ResolveError>)
    ensures data == Downloaded(url, maxBytes, budget.remaining, valid, response)
    ensures data.Ok? ==> |data.value| <= DownloadLimit(maxBytes, budget.remaining)
  {
    var limit := maxBytes;
    if budget.remaining < limit { limit := if budget.remaining < 0 then 0 else budget.remaining; }
    var fetched := Fetch(url, limit, valid, response);
    if fetched.Err? {
      return Err(if limit < maxBytes && fetched.error == TooLarge then OverTotal else Download(fetched.error));
    }
    if |fetched.value| > budget.remaining { return Err(OverTotal); }
    return Ok(fetched.value);
  }

  method ResolveBase64URL(sources: array<Source>, i: nat, maxBytes: nat, budget: PayloadBudget,
                          reservation: Reservation?, valid: seq<byte> -> bool, response: Response, others: int)
    returns (error: Option<ResolveError>, ghost outcome: Result<Option<seq<byte>>, ResolveError>)
    requires i < sources.Length
    modifies sources, budget, Footprint(reservation)
    ensures outcome == Outcome(old(sources[i]), maxBytes, old(budget.remaining),
                               Grants(old(AccountOf(reservation)), LimitOf(reservation),
                                      Base64.EncodedLen(DownloadLimit(maxBytes, old(budget.remaining)))),
                               valid, response)
    ensures error == if outcome.Ok? then None else Some(outcome.error)
    ensures sources[..] == old(sources[..])[i := Resolved(old(sources[i]), outcome)]
    ensures budget.remaining ==
      old(budget.remaining) - (if outcome.Ok? && outcome.value.Some? then |outcome.value.value| else 0)
    ensures AccountOf(reservation) ==
      ChargedTo(old(AccountOf(reservation)), |sources[i].dataB64| - |old(sources[i]).dataB64|,
                                                if Waits(old(sources[i]), outcome) then others else 0)
  {
    var s := sources[i];
    var maximum := Base64.EncodedLen(DownloadLimit(maxBytes, budget.remaining));
    outcome := Outcome(s, maxBytes, budget.remaining,
                       Grants(AccountOf(reservation), LimitOf(reservation), maximum), valid, response);
    if Blank(s.dataURL) { return None, outcome; }
    if s.dataB64 != [] { return Some(Conflict), outcome; }
    var granted := ReservePayloadBytes(reservation, maximum, others);
    if !granted { return Some(OverBudget), outcome; }
    var fetched := DownloadWithin(s.dataURL, maxBytes, budget, valid, response);
    if fetched.Err? {
      FinishReservation(reservation, maximum, 0);
      return Some(fetched.error), outcome;
    }
    budget.remaining := budget.remaining - |fetched.value|;
    Base64.EncodedLenIsMonotone(|fetched.value|, DownloadLimit(maxBytes, old(budget.remaining)));
    sources[i] := s.(dataB64 := Base64.Encode(fetched.value), dataURL := []);
    FinishReservation(reservation, maximum, |sources[i].dataB64|);
    return None, outcome;
  }

  // The whole request.

  predicate HasURL(sources: seq<Source>) {
    exists i :: 0 <= i < |sources| && !Blank(sources[i].dataURL)
  }

  predicate Sound(s: Source, valid: seq<byte> -> bool) {
    Blank(s.dataURL) || (s.dataB64 == [] && valid(s.dataURL))
  }

  predicate Answered(s: Source, response: Response, maxBytes: nat) {
    Blank(s.dataURL) || (response.Body? && |response.data| <= maxBytes)
  }

  function BytesOf(s: Source, response: Response): nat {
    if Blank(s.dataURL) || response.Broken? then 0 else |response.data|
  }

  /** The bytes the first n sources download. */
  function FetchedBytes(sources: seq<Source>, responses: seq<Response>, n: nat): nat
    requires n <= |sources| == |responses|
  {
    if n == 0 then 0
    else FetchedBytes(sources, responses, n - 1) + BytesOf(sources[n - 1], responses[n - 1])
  }

  function InlineBytes(sources: seq<Source>): nat {
    if sources == [] then 0 else |sources[0].dataB64| + InlineBytes(sources[1..])
  }

  lemma {:induction false} InlineBytesUpdated(sources: seq<Source>, i: nat, s: Source)
    requires i < |sources|
    ensures InlineBytes(sources[i := s]) == InlineBytes(sources) - |sources[i].dataB64| + |s.dataB64|
    decreases |sources|
  {
    if i == 0 {
      assert sources[0 := s][1..] == sources[1..];
    } else {
      assert sources[i := s][1..] == sources[1..][i - 1 := s];
      InlineBytesUpdated(sources[1..], i - 1, s);
    }
  }

  /** A source after the loop: as it was, or holding its download in place of its URL. */
  ghost predicate Becomes(s: Source, s': Source, response: Response, maxBytes: nat) {
    s' == s ||
    (!Blank(s.dataURL) && s.dataB64 == [] && response.Body? && |response.data| <= maxBytes
     && s' == s.(dataB64 := Base64.Encode(response.data), dataURL := []))
  }

  lemma {:induction false} OutcomeMeans(s: Source, maxBytes: nat, remaining: int, granted: bool,
    valid: seq<byte> -> bool, response: Response)
    ensures var o := Outcome(s, maxBytes, remaining, granted, valid, response);
            && Becomes(s, Resolved(s, o), response, maxBytes)
            && (o.Err? ==> Resolved(s, o) == s)
            && (o.Ok? ==> Blank(Resolved(s, o).dataURL) && Answered(s, response, maxBytes))
            && (o.Ok? ==> BytesOf(s, response) == if o.value.Some? then |o.value.value| else 0)
            && (o.Ok? && !Blank(s.dataURL) ==> BytesOf(s, response) <= remaining)
            && (o.Err? && o.error != OverBudget && Sound(s, valid) && Answered(s, response, maxBytes) ==>
               BytesOf(s, response) > remaining)
            && (o == Err(OverBudget) ==> !granted)
  {
    DownloadedIffFits(s.dataURL, maxBytes, remaining, valid, response);
  }

  /** Which answer a source gets, case by case. */
  lemma {:induction false} OutcomeExactly(s: Source, maxBytes: nat, remaining: nat, granted: bool,
    valid: seq<byte> -> bool, response: Response)
    ensures var o := Outcome(s, maxBytes, remaining, granted, valid, response);
            var sent := valid(s.dataURL) && response.Body?;
            var size := if response.Body? then |response.data| else 0;
            && (o == Ok(None) <==> Blank(s.dataURL))
            && (o == Err(Conflict) <==> !Blank(s.dataURL) && s.dataB64 != [])
            && (o == Err(OverBudget) <==> !Blank(s.dataURL) && s.dataB64 == [] && !granted)
            && (!Blank(s.dataURL) && s.dataB64 == [] && granted ==>
               && (o == Err(Download(NotFetched)) <==> !sent)
               && (o == Err(Download(DownloadError.TooLarge)) <==> sent && size > maxBytes && remaining >= maxBytes)
               && (o == Err(OverTotal) <==> sent && size > remaining && remaining < maxBytes)
               && (o.Ok? <==> sent && size <= maxBytes && size <= remaining)
               && (o.Ok? ==> o == Ok(Some(response.data))))
  {
  }

  /** When nothing stands in the way but the shared byte budget: what a caller can check given the answers. */
  ghost predicate Fits(sources: seq<Source>, responses: seq<Response>, valid: seq<byte> -> bool, maxBytes: nat,
    decoded: nat, total: nat)
    requires |sources| == |responses|
  {
    HasURL(sources) ==>
      (forall i :: 0 <= i < |sources| ==> Sound(sources[i], valid) && Answered(sources[i], responses[i], maxBytes))
      && decoded + FetchedBytes(sources, responses, |sources|) <= total
  }

  lemma {:induction false} FetchedBytesGrow(sources: seq<Source>, responses: seq<Response>, m: nat, n: nat)
    requires m <= n <= |sources| == |responses|
    ensures FetchedBytes(sources, responses, m) <= FetchedBytes(sources, responses, n)
    decreases n
  {
    if m < n { FetchedBytesGrow(sources, responses, m, n - 1); }
  }

  /**
   One run of the resolve loop: the sources, what their servers answer, what other requests do to the shared total
   during each download, the room left for decoded bytes, and the request's account, None without a reservation.
   */
  datatype Fetching = Fetching(sources: seq<Source>, responses: seq<Response>, others: seq<int>,
                               valid: seq<byte> -> bool, maxBytes: nat, room: int, limit: int, account: Option<Account>)

  predicate Whole(f: Fetching) {
    |f.sources| == |f.responses| == |f.others|
  }

  function KeptOf(s: Source, response: Response): nat {
    if Blank(s.dataURL) || response.Broken? then 0 else Base64.EncodedLen(|response.data|)
  }

  /** What the request keeps of the first n downloads. */
  function KeptBytes(f: Fetching, n: nat): nat
    requires Whole(f) && n <= |f.sources|
  {
    if n == 0 then 0 else KeptBytes(f, n - 1) + KeptOf(f.sources[n - 1], f.responses[n - 1])
  }

  /** How far the other requests move the shared total during the first n downloads. */
  function OthersMoved(f: Fetching, n: nat): int
    requires Whole(f) && n <= |f.sources|
  {
    if n == 0 then 0 else OthersMoved(f, n - 1) + if Blank(f.sources[n - 1].dataURL) then 0 else f.others[n - 1]
  }

  function AccountAt(f: Fetching, n: nat): Option<Account>
    requires Whole(f) && n <= |f.sources|
  {
    ChargedTo(f.account, KeptBytes(f, n), OthersMoved(f, n))
  }

  /** Whether the shared budget has room for the longest download that source i may make. */
  predicate GrantedAt(f: Fetching, i: nat)
    requires Whole(f) && i < |f.sources|
  {
    Grants(AccountAt(f, i), f.limit, LongestAt(f, i))
  }

  function LongestAt(f: Fetching, i: nat): nat
    requires Whole(f) && i < |f.sources|
  {
    Base64.EncodedLen(DownloadLimit(f.maxBytes, f.room - FetchedBytes(f.sources, f.responses, i)))
  }

  function OutcomeAt(f: Fetching, i: nat): Result<Option<seq<byte>>, ResolveError>
    requires Whole(f) && i < |f.sources|
  {
    Outcome(f.sources[i], f.maxBytes, f.room - FetchedBytes(f.sources, f.responses, i), GrantedAt(f, i), f.valid,
      f.responses[i])
  }

  /** The first source from i on that fails; all of them when none does. */
  function Stop(f: Fetching, i: nat): (k: nat)
    requires Whole(f) && i <= |f.sources|
    ensures i <= k <= |f.sources|
    ensures k < |f.sources| ==> OutcomeAt(f, k).Err?
    ensures forall j :: i <= j < k ==> OutcomeAt(f, j).Ok?
    decreases |f.sources| - i
  {
    if i == |f.sources| || OutcomeAt(f, i).Err? then i else Stop(f, i + 1)
  }

  function ErrorAt(f: Fetching, k: nat): Option<ResolveError>
    requires Whole(f) && k <= |f.sources| && (k < |f.sources| ==> OutcomeAt(f, k).Err?)
  {
    if k < |f.sources| then Some(OutcomeAt(f, k).error) else None
  }

  /** The sources once the first k are resolved. */
  function SourcesAt(f: Fetching, k: nat): (now: seq<Source>)
    requires Whole(f) && k <= |f.sources|
    ensures |now| == |f.sources|
  {
    if k == 0 then f.sources else SourcesAt(f, k - 1)[k - 1 := Resolved(f.sources[k - 1], OutcomeAt(f, k - 1))]
  }

  /** The account when the loop ends; a download that failed still left the others time to run. */
  function AccountAfter(f: Fetching, k: nat): Option<Account>
    requires Whole(f) && k <= |f.sources|
  {
    if k == |f.sources| then AccountAt(f, k)
    else ChargedTo(AccountAt(f, k), 0, if Waits(f.sources[k], OutcomeAt(f, k)) then f.others[k] else 0)
  }

  lemma {:induction false} SourcesAtIndex(f: Fetching, k: nat, j: nat)
    requires Whole(f) && k <= |f.sources| && j < |f.sources|
    ensures SourcesAt(f, k)[j] == if j < k then Resolved(f.sources[j], OutcomeAt(f, j)) else f.sources[j]
    decreases k
  {
    if k > 0 { SourcesAtIndex(f, k - 1, j); }
  }

  /** What one source's outcome says about the source, its answer and the two budgets. */
  lemma {:induction false} OutcomeAtMeans(f: Fetching, i: nat)
    requires Whole(f) && i < |f.sources|
    ensures var o, s, response := OutcomeAt(f, i), f.sources[i], f.responses[i];
            && Becomes(s, Resolved(s, o), response, f.maxBytes)
            && (o.Err? ==> Resolved(s, o) == s)
            && (o.Ok? ==> Blank(Resolved(s, o).dataURL) && Sound(s, f.valid) && Answered(s, response, f.maxBytes))
            && (o.Ok? && !Blank(s.dataURL) ==> FetchedBytes(f.sources, f.responses, i + 1) <= f.room)
            && (o.Err? && o.error != OverBudget && Sound(s, f.valid) && Answered(s, response, f.maxBytes) ==>
                  FetchedBytes(f.sources, f.responses, i + 1) > f.room)
            && (o == Err(OverBudget) <==> !Blank(s.dataURL) && s.dataB64 == [] && !GrantedAt(f, i))
  {
    OutcomeMeans(f.sources[i], f.maxBytes, f.room - FetchedBytes(f.sources, f.responses, i), GrantedAt(f, i), f.valid,
      f.responses[i]);
  }

  /** A turn without an error takes the loop's state one source further. */
  lemma {:induction false} TurnAdvances(f: Fetching, i: nat)
    requires Whole(f) && i < |f.sources| && OutcomeAt(f, i).Ok?
    ensures var o, s := OutcomeAt(f, i), f.sources[i];
            && FetchedBytes(f.sources, f.responses, i + 1) ==
               FetchedBytes(f.sources, f.responses, i) + (if o.value.Some? then |o.value.value| else 0)
            && KeptOf(s, f.responses[i]) == |Resolved(s, o).dataB64| - |s.dataB64|
            && AccountAt(f, i + 1) ==
               ChargedTo(AccountAt(f, i), |Resolved(s, o).dataB64| - |s.dataB64|,
                 if Waits(s, o) then f.others[i] else 0)
  {
    OutcomeMeans(f.sources[i], f.maxBytes, f.room - FetchedBytes(f.sources, f.responses, i), GrantedAt(f, i), f.valid,
      f.responses[i]);
  }

  lemma {:induction false} SourcesBecome(f: Fetching, k: nat)
    requires Whole(f) && k <= |f.sources|
    ensures forall j :: 0 <= j < |f.sources| ==> Becomes(f.sources[j], SourcesAt(f, k)[j], f.responses[j], f.maxBytes)
  {
    forall j | 0 <= j < |f.sources| ensures Becomes(f.sources[j], SourcesAt(f, k)[j], f.responses[j], f.maxBytes) {
      SourcesAtIndex(f, k, j);
      OutcomeAtMeans(f, j);
    }
  }

  lemma {:induction false} InlineGrowsOnce(f: Fetching, k: nat)
    requires Whole(f) && k < |f.sources| && OutcomeAt(f, k).Ok?
    ensures InlineBytes(SourcesAt(f, k + 1)) == InlineBytes(SourcesAt(f, k)) + KeptOf(f.sources[k], f.responses[k])
  {
    TurnAdvances(f, k);
    SourcesAtIndex(f, k, k);
    InlineBytesUpdated(SourcesAt(f, k), k, Resolved(f.sources[k], OutcomeAt(f, k)));
  }

  lemma {:induction false} InlineGrows(f: Fetching, k: nat)
    requires Whole(f) && k <= |f.sources| && forall j :: 0 <= j < k ==> OutcomeAt(f, j).Ok?
    ensures InlineBytes(SourcesAt(f, k)) == InlineBytes(f.sources) + KeptBytes(f, k)
    decreases k
  {
    if k > 0 {
      InlineGrows(f, k - 1);
      InlineGrowsOnce(f, k - 1);
    }
  }

  /** What a loop without an error has done. */
  lemma {:induction false} AllResolved(f: Fetching)
    requires Whole(f) && Stop(f, 0) == |f.sources|
    ensures !HasURL(SourcesAt(f, |f.sources|))
    ensures forall i :: 0 <= i < |f.sources| ==>
      Sound(f.sources[i], f.valid) && Answered(f.sources[i], f.responses[i], f.maxBytes)
    ensures HasURL(f.sources) ==> FetchedBytes(f.sources, f.responses, |f.sources|) <= f.room
  {
    forall i | 0 <= i < |f.sources|
      ensures Blank(SourcesAt(f, |f.sources|)[i].dataURL)
      ensures Sound(f.sources[i], f.valid) && Answered(f.sources[i], f.responses[i], f.maxBytes)
    {
      SourcesAtIndex(f, |f.sources|, i);
      OutcomeAtMeans(f, i);
    }
    if i :| 0 <= i < |f.sources| && !Blank(f.sources[i].dataURL) { RoomIsKept(f, |f.sources|, i); }
  }

  lemma {:induction false} RoomIsKept(f: Fetching, n: nat, i: nat)
    requires Whole(f) && i < n <= |f.sources| && !Blank(f.sources[i].dataURL)
    requires forall j :: 0 <= j < n ==> OutcomeAt(f, j).Ok?
    ensures FetchedBytes(f.sources, f.responses, n) <= f.room
    decreases n
  {
    OutcomeAtMeans(f, n - 1);
    if i < n - 1 { RoomIsKept(f, n - 1, i); }
  }

  /** An error other than a refusal by the shared budget is the fault of the sources, their answers or their sizes. */
  lemma {:induction false} FailureIsAMisfit(f: Fetching)
    requires Whole(f) && Stop(f, 0) < |f.sources| && OutcomeAt(f, Stop(f, 0)).error != OverBudget
    requires forall i :: 0 <= i < |f.sources| ==>
      Sound(f.sources[i], f.valid) && Answered(f.sources[i], f.responses[i], f.maxBytes)
    ensures FetchedBytes(f.sources, f.responses, |f.sources|) > f.room
  {
    var i := Stop(f, 0);
    OutcomeAtMeans(f, i);
    FetchedBytesGrow(f.sources, f.responses, i + 1, |f.sources|);
  }

  // When the shared budget refuses.

  /** Source i is reached, has a URL to fetch, and its longest download does not fit what is free at that turn. */
  ghost predicate RefusedAt(f: Fetching, i: nat)
    requires Whole(f)
  {
    && i < |f.sources| && (forall j :: 0 <= j < i ==> OutcomeAt(f, j).Ok?)
    && !Blank(f.sources[i].dataURL) && f.sources[i].dataB64 == []
    && f.account.Some? && LongestAt(f, i) > f.limit - (f.account.value.used + KeptBytes(f, i) + OthersMoved(f, i))
  }

  /** The loop ends with a budget error exactly when some source is refused. */
  lemma {:induction false} RefusedExactly(f: Fetching)
    requires Whole(f)
    ensures ErrorAt(f, Stop(f, 0)) == Some(OverBudget) <==> exists i: nat :: RefusedAt(f, i)
  {
    var k := Stop(f, 0);
    if ErrorAt(f, k) == Some(OverBudget) {
      OutcomeAtMeans(f, k);
      assert RefusedAt(f, k);
    }
    if i: nat :| RefusedAt(f, i) {
      OutcomeAtMeans(f, i);
      assert i == k;
    }
  }

  /** The most that the first n sources can keep. */
  function MaxKept(f: Fetching, n: nat): nat
    requires Whole(f) && n <= |f.sources|
  {
    if n == 0 then 0
    else MaxKept(f, n - 1) + if Blank(f.sources[n - 1].dataURL) then 0 else Base64.EncodedLen(f.maxBytes)
  }

  lemma {:induction false} KeptIsBounded(f: Fetching, n: nat)
    requires Whole(f) && n <= |f.sources| && forall j :: 0 <= j < n ==>
      Answered(f.sources[j], f.responses[j], f.maxBytes)
    ensures KeptBytes(f, n) <= MaxKept(f, n)
    decreases n
  {
    if n > 0 {
      KeptIsBounded(f, n - 1);
      if !Blank(f.sources[n - 1].dataURL) {
        Base64.EncodedLenIsMonotone(|f.responses[n - 1].data|, f.maxBytes);
      }
    }
  }

  lemma {:induction false} MaxKeptGrows(f: Fetching, m: nat, n: nat)
    requires Whole(f) && m <= n <= |f.sources|
    ensures MaxKept(f, m) <= MaxKept(f, n)
    decreases n
  {
    if m < n { MaxKeptGrows(f, m, n - 1); }
  }

  /** Free budget for every URL at its largest, whatever the other requests take meanwhile. */
  ghost predicate Ample(f: Fetching)
    requires Whole(f)
  {
    f.account.Some? ==>
      forall i :: 0 <= i < |f.sources| ==> f.account.value.used + OthersMoved(f, i) + MaxKept(f, |f.sources|) <= f.limit
  }

  /** With ample free budget nothing is refused. */
  lemma {:induction false} AmpleIsNeverRefused(f: Fetching, i: nat)
    requires Whole(f) && Ample(f)
    ensures !RefusedAt(f, i)
  {
    if RefusedAt(f, i) {
      forall j | 0 <= j < i ensures Answered(f.sources[j], f.responses[j], f.maxBytes) {
        OutcomeAtMeans(f, j);
      }
      KeptIsBounded(f, i);
      MaxKeptGrows(f, i + 1, |f.sources|);
      Base64.EncodedLenIsMonotone(DownloadLimit(f.maxBytes, f.room - FetchedBytes(f.sources, f.responses, i)),
        f.maxBytes);
      assert false;
    }
  }

  method CompileHasPayloadURLs(sources: array<Source>) returns (any: bool)
    ensures any == HasURL(sources[..])
  {
    var i := 0;
    while i < sources.Length
      invariant 0 <= i <= sources.Length && forall j :: 0 <= j < i ==> Blank(sources[j].dataURL)
    {
      if !Blank(sources[i].dataURL) { return true; }
      i := i + 1;
    }
    return false;
  }

  /** What is wrong with a source before anything is fetched. */
  function Unsound(s: Source, valid: seq<byte> -> bool): Option<ResolveError> {
    if Sound(s, valid) then None else if s.dataB64 != [] then Some(Conflict) else Some(BadURL)
  }

  function FirstUnsound(sources: seq<Source>, valid: seq<byte> -> bool, i: nat): (error: Option<ResolveError>)
    requires i <= |sources|
    ensures error.None? <==> forall j :: i <= j < |sources| ==> Sound(sources[j], valid)
    ensures error in {None, Some(Conflict), Some(BadURL)}
    decreases |sources| - i
  {
    if i == |sources| then None
    else if Sound(sources[i], valid) then FirstUnsound(sources, valid, i + 1)
    else Unsound(sources[i], valid)
  }

  method ValidatePayloadURLs(sources: array<Source>, valid: seq<byte> -> bool) returns (error: Option<ResolveError>)
    ensures error == FirstUnsound(sources[..], valid, 0)
  {
    var i := 0;
    while i < sources.Length
      invariant 0 <= i <= sources.Length
      invariant FirstUnsound(sources[..], valid, 0) == FirstUnsound(sources[..], valid, i)
    {
      if !Blank(sources[i].dataURL) {
        if sources[i].dataB64 != [] { return Some(Conflict); }
        if !valid(sources[i].dataURL) { return Some(BadURL); }
      }
      i := i + 1;
    }
    return None;
  }

  /** The loop's state in front of source i. */
  ghost predicate InFrontOf(f: Fetching, i: nat, now: seq<Source>, remaining: int, account: Option<Account>)
    requires Whole(f) && i <= |f.sources|
  {
    && now == SourcesAt(f, i) && remaining == f.room - FetchedBytes(f.sources, f.responses, i)
       && account == AccountAt(f, i)
  }

  /** The loop's error, sources and account at its end. */
  datatype End = End(error: Option<ResolveError>, sources: seq<Source>, account: Option<Account>)

  function LoopEnd(f: Fetching, k: nat): End
    requires Whole(f) && k <= |f.sources| && (k < |f.sources| ==> OutcomeAt(f, k).Err?)
  {
    End(ErrorAt(f, k), SourcesAt(f, k), AccountAfter(f, k))
  }

  lemma {:induction false} TurnEnds(f: Fetching, i: nat, o: Result<Option<seq<byte>>, ResolveError>, now: seq<Source>,
    account: Option<Account>)
    requires Whole(f) && i < |f.sources| && o == OutcomeAt(f, i)
    requires now == SourcesAt(f, i)[i := Resolved(f.sources[i], o)]
    requires account ==
      ChargedTo(AccountAt(f, i), |now[i].dataB64| - |f.sources[i].dataB64|,
      if Waits(f.sources[i], o) then f.others[i] else 0)
    ensures o.Ok? ==> now == SourcesAt(f, i + 1) && account == AccountAt(f, i + 1)
    ensures o.Err? ==> End(Some(o.error), now, account) == LoopEnd(f, i)
  {
    SourcesAtIndex(f, i, i);
    if o.Ok? { TurnAdvances(f, i); }
  }

  method ResolveNext(ghost f: Fetching, sources: array<Source>, i: nat, maxBytes: nat,
                     budget: PayloadBudget, reservation: Reservation?, valid: seq<byte> -> bool, response: Response,
                       others: int)
    returns (error: Option<ResolveError>)
    requires Whole(f) && i < sources.Length == |f.sources| && f.limit == LimitOf(reservation)
    requires f.maxBytes == maxBytes && f.valid == valid && f.responses[i] == response && f.others[i] == others
    requires InFrontOf(f, i, sources[..], budget.remaining, AccountOf(reservation))
    modifies sources, budget, Footprint(reservation)
    ensures error.None? ==>
      OutcomeAt(f, i).Ok? && InFrontOf(f, i + 1, sources[..], budget.remaining, AccountOf(reservation))
    ensures error.Some? ==> OutcomeAt(f, i).Err? && End(error, sources[..], AccountOf(reservation)) == LoopEnd(f, i)
  {
    SourcesAtIndex(f, i, i);
    assert sources[..][i] == sources[i];
    ghost var outcome;
    error, outcome := ResolveBase64URL(sources, i, maxBytes, budget, reservation, valid, response, others);
    assert sources[..][i] == sources[i];
    assert outcome == OutcomeAt(f, i);
    TurnEnds(f, i, outcome, sources[..], AccountOf(reservation));
    if outcome.Ok? { TurnAdvances(f, i); }
  }

  method ResolveSources(sources: array<Source>, maxBytes: nat, budget: PayloadBudget, reservation: Reservation?,
                        valid: seq<byte> -> bool, responses: seq<Response>, others: seq<int>)
    returns (error: Option<ResolveError>)
    requires |responses| == |others| == sources.Length
    modifies sources, budget, Footprint(reservation)
    ensures var f := Fetching(old(sources[..]), responses, others, valid, maxBytes, old(budget.remaining),
                              LimitOf(reservation), old(AccountOf(reservation)));
            End(error, sources[..], AccountOf(reservation)) == LoopEnd(f, Stop(f, 0))
  {
    ghost var f := Fetching(sources[..], responses, others, valid, maxBytes, budget.remaining,
                            LimitOf(reservation), AccountOf(reservation));
    var i := 0;
    while i < sources.Length
      invariant 0 <= i <= sources.Length && Stop(f, 0) == Stop(f, i)
      invariant InFrontOf(f, i, sources[..], budget.remaining, AccountOf(reservation))
    {
      error := ResolveNext(f, sources, i, maxBytes, budget, reservation, valid, responses[i], others[i]);
      if error.Some? { return; }
      i := i + 1;
    }
    return None;
  }

  /** A compile request's run of the loop. */
  function RequestOf(sources: seq<Source>, decoded: nat, maxBytes: nat, total: nat, limit: int,
                     account: Option<Account>, valid: seq<byte> -> bool, responses: seq<Response>,
                       others: seq<int>): Fetching {
    Fetching(sources, responses, others, valid, maxBytes, total - decoded, limit, account)
  }

  /** Something is to be fetched, and nothing is wrong beforehand. */
  predicate Fetches(f: Fetching) {
    HasURL(f.sources) && FirstUnsound(f.sources, f.valid, 0).None?
  }

  /** How a request ends: at once when there is nothing to fetch or a source is unsound, otherwise as the loop does. */
  function RequestEnd(f: Fetching): End
    requires Whole(f)
  {
    if Fetches(f) then LoopEnd(f, Stop(f, 0))
    else End(if HasURL(f.sources) then FirstUnsound(f.sources, f.valid, 0) else None, f.sources, f.account)
  }

  lemma {:induction false} RequestEndCases(f: Fetching)
    requires Whole(f)
    ensures !HasURL(f.sources) ==> RequestEnd(f) == End(None, f.sources, f.account)
    ensures HasURL(f.sources) && FirstUnsound(f.sources, f.valid, 0).Some? ==>
              RequestEnd(f) == End(FirstUnsound(f.sources, f.valid, 0), f.sources, f.account)
    ensures Fetches(f) ==> RequestEnd(f) == LoopEnd(f, Stop(f, 0))
  {
  }

  method ResolveCompilePayloadURLs(sources: array<Source>, decoded: nat, maxBytes: nat, total: nat,
                                   reservation: Reservation?, valid: seq<byte> -> bool, responses: seq<Response>,
                                     others: seq<int>)
    returns (error: Option<ResolveError>)
    requires |responses| == |others| == sources.Length
    modifies sources, Footprint(reservation)
    ensures End(error, sources[..], AccountOf(reservation)) ==
            RequestEnd(RequestOf(old(sources[..]), decoded, maxBytes, total, LimitOf(reservation),
                                 old(AccountOf(reservation)), valid, responses, others))
  {
    ghost var f := RequestOf(sources[..], decoded, maxBytes, total, LimitOf(reservation), AccountOf(reservation),
                             valid, responses, others);
    RequestEndCases(f);
    var any := CompileHasPayloadURLs(sources);
    if !any { return None; }
    error := ValidatePayloadURLs(sources, valid);
    if error.Some? { return; }
    var budget := new PayloadBudget(total - decoded);
    error := ResolveSources(sources, maxBytes, budget, reservation, valid, responses, others);
    assert End(error, sources[..], AccountOf(reservation)) == LoopEnd(f, Stop(f, 0));
  }

  /** What a request's sources become, and that the account follows the strings that are kept. */
  lemma {:induction false} RequestKeeps(f: Fetching)
    requires Whole(f)
    ensures forall i :: 0 <= i < |f.sources| ==>
      Becomes(f.sources[i], RequestEnd(f).sources[i], f.responses[i], f.maxBytes)
    ensures RequestEnd(f).error.None? ==> !HasURL(RequestEnd(f).sources)
    ensures f.account.Some? ==>
              RequestEnd(f).account.Some?
              && RequestEnd(f).account.value.held ==
                 f.account.value.held + InlineBytes(RequestEnd(f).sources) - InlineBytes(f.sources)
  {
    var k := Stop(f, 0);
    if Fetches(f) {
      SourcesBecome(f, k);
      InlineGrows(f, k);
      if k == |f.sources| { AllResolved(f); }
    }
  }

  /** The request is refused by the shared budget exactly when one of its sources is. */
  lemma {:induction false} RequestRefusedExactly(f: Fetching)
    requires Whole(f) && HasURL(f.sources) && forall i :: 0 <= i < |f.sources| ==> Sound(f.sources[i], f.valid)
    ensures RequestEnd(f).error == Some(OverBudget) <==> exists i: nat :: RefusedAt(f, i)
  {
    RefusedExactly(f);
  }

  /**
   Main result: a request succeeds exactly when it fits by itself and the shared budget refuses none of its sources.
   */
  lemma {:induction false} ResolvesIffFits(f: Fetching, decoded: nat, total: nat)
    requires Whole(f) && f.room == total - decoded
    ensures RequestEnd(f).error.None? <==>
            Fits(f.sources, f.responses, f.valid, f.maxBytes, decoded, total)
              && (HasURL(f.sources) ==> forall i: nat :: !RefusedAt(f, i))
    ensures Ample(f) ==>
      (RequestEnd(f).error.None? <==> Fits(f.sources, f.responses, f.valid, f.maxBytes, decoded, total))
  {
    RefusedExactly(f);
    if HasURL(f.sources) && FirstUnsound(f.sources, f.valid, 0).None? {
      if Stop(f, 0) == |f.sources| {
        AllResolved(f);
      } else if Fits(f.sources, f.responses, f.valid, f.maxBytes, decoded, total)
        && OutcomeAt(f, Stop(f, 0)).error != OverBudget {
        FailureIsAMisfit(f);
      }
    }
    if Ample(f) {
      forall i: nat ensures !RefusedAt(f, i) { AmpleIsNeverRefused(f, i); }
    }
  }

  /** Everything in a compile request that is not a source, and what the slice of sources keeps beyond its length. */
  datatype Rest = Rest(before: seq<Value>, spare: seq<Value>, after: seq<Value>)

  function SourceValues(sources: seq<Source>): (values: seq<Value>)
    ensures |values| == |sources|
  {
    if sources == [] then []
    else
      [Struct([Text(sources[0].name), Text(sources[0].dataB64), Text(sources[0].dataURL)])]
      + SourceValues(sources[1..])
  }

  function RequestValue(rest: Rest, sources: seq<Source>): Value {
    Struct(rest.before + [Slice(SourceValues(sources), rest.spare)] + rest.after)
  }

  lemma {:induction false} SourceBytes(s: Source)
    ensures StringBytes(Struct([Text(s.name), Text(s.dataB64), Text(s.dataURL)])) ==
      |s.name| + |s.dataB64| + |s.dataURL|
  {
    var name, data, url := Text(s.name), Text(s.dataB64), Text(s.dataURL);
    assert [url][1..] == [] && [data, url][1..] == [url] && [name, data, url][1..] == [data, url];
    assert AllBytes([url]) == StringBytes(url) && AllBytes([data, url]) == StringBytes(data) + AllBytes([url]);
    assert AllBytes([name, data, url]) == StringBytes(name) + AllBytes([data, url]);
  }

  lemma {:induction false} SourcesGrowWithInline(sources: seq<Source>, sources': seq<Source>, responses: seq<Response>,
    maxBytes: nat)
    requires |sources| == |sources'| == |responses|
    requires forall i :: 0 <= i < |sources| ==> Becomes(sources[i], sources'[i], responses[i], maxBytes)
    ensures AllBytes(SourceValues(sources')) - AllBytes(SourceValues(sources)) <=
            InlineBytes(sources') - InlineBytes(sources)
    decreases |sources|
  {
    if sources != [] {
      SourceBytes(sources[0]);
      SourceBytes(sources'[0]);
      assert Becomes(sources[0], sources'[0], responses[0], maxBytes);
      SourcesGrowWithInline(sources[1..], sources'[1..], responses[1..], maxBytes);
    }
  }

  /**
   Main result, with the contract of ResolveCompilePayloadURLs: a reservation that covered every string of the request
   before its URLs were resolved covers every string of it afterwards, also when the loop stopped half way.
   */
  lemma {:induction false} HeldStillCovers(rest: Rest, f: Fetching)
    requires Whole(f) && f.account.Some? && StringBytes(RequestValue(rest, f.sources)) <= f.account.value.held
    ensures RequestEnd(f).account.Some?
    ensures StringBytes(RequestValue(rest, RequestEnd(f).sources)) <= RequestEnd(f).account.value.held
  {
    RequestKeeps(f);
    RequestBytes(rest, f.sources);
    RequestBytes(rest, RequestEnd(f).sources);
    SourcesGrowWithInline(f.sources, RequestEnd(f).sources, f.responses, f.maxBytes);
  }

  lemma {:induction false} RequestBytes(rest: Rest, sources: seq<Source>)
    ensures StringBytes(RequestValue(rest, sources)) ==
            AllBytes(rest.before) + AllBytes(SourceValues(sources)) + AllBytes(rest.spare) + AllBytes(rest.after)
  {
    var slice := Slice(SourceValues(sources), rest.spare);
    AllBytesOfConcat(rest.before + [slice], rest.after);
    AllBytesOfConcat(rest.before, [slice]);
    assert [slice][1..] == [] && StringBytes(slice) == AllBytes(SourceValues(sources)) + AllBytes(rest.spare);
    assert AllBytes([slice]) == StringBytes(slice);
  }

  // A text field and its URL.

  class TextField {
    var text: seq<byte>
    var url: seq<byte>

    constructor (text: seq<byte>, url: seq<byte>)
      ensures this.text == text && this.url == url
    {
      this.text, this.url := text, url;
    }

    /** Keeps the field at most maxBytes of valid UTF-8, or leaves it as it was. */
    method Resolve(maxBytes: nat, reservation: Reservation?, valid: seq<byte> -> bool, response: Response, others: int)
      returns (error: Option<ResolveError>)
      modifies this, Footprint(reservation)
      ensures error.None? ==> Blank(url)
      ensures Blank(old(url)) ==> error.None? && text == old(text) && url == old(url)
      ensures !Blank(old(url)) ==>
                (error.None? <==> old(text) == [] && Grants(old(AccountOf(reservation)), LimitOf(reservation), maxBytes)
                                  && valid(old(url)) && response.Body? && |response.data| <= maxBytes
                                     && Utf8.Valid(response.data))
      ensures error.None? && !Blank(old(url)) ==> text == response.data && url == []
      ensures error.Some? ==> text == old(text) && url == old(url)
      ensures AccountOf(reservation) ==
              ChargedTo(old(AccountOf(reservation)), |text| - |old(text)|,
                        if !Blank(old(url)) && old(text) == [] && error != Some(OverBudget) then others else 0)
    {
      if Blank(url) { return None; }
      if text != [] { return Some(Conflict); }
      var granted := ReservePayloadBytes(reservation, maxBytes, others);
      if !granted { return Some(OverBudget); }
      var retained := 0;
      var fetched := Fetch(url, maxBytes, valid, response);
      if fetched.Err? {
        error := Some(Download(fetched.error));
      } else if !Utf8.Valid(fetched.value) {
        error := Some(NotUtf8);
      } else {
        text := fetched.value;
        retained := |text|;
        url := [];
        error := None;
      }
      FinishReservation(reservation, maxBytes, retained);
    }
  }
}
