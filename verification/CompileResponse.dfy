/**
 The bounds of internal/compile/response.go on a compile response, and the event size of
 internal/compilewire/limits.go that they are for.
 */
module CompileResponse {
  import opened Common
  import opened JsonSize
  import Base64
  import Utf8

  type Text = seq<byte>

  const ARTIFACT_BYTES := 16 * 1048576
  const ARTIFACT_TOTAL_BYTES := 48 * 1048576
  const ARTIFACT_COUNT := 512
  const ARTIFACT_NAME_BYTES := 4096
  const OUTPUT_BYTES := 1048576
  const REASON_BYTES := 1048576
  const REASON_CODE_BYTES := 128
  const SSE_EVENT_BYTES := 96 * 1048576

  const ENCODED_LIMIT := Base64.EncodedLen(ARTIFACT_TOTAL_BYTES) + 4 * ARTIFACT_COUNT

  function Ascii(s: string): (t: Text)
    ensures |t| == |s|
  {
    seq(|s|, i requires 0 <= i < |s| => s[i] as int % 128)
  }

  datatype Artifact = Artifact(name: Text, dataB64: Text, mode: Text)

  datatype Response = Response(status: Text, artifacts: seq<Artifact>, stdout: Text, stderr: Text,
                               stdoutTruncated: bool, stderrTruncated: bool, reason: Text, reasonTruncated: bool,
                                 reasonCode: Text)

  datatype ArtifactError = TooMany | NameTooLong | EncodedTooLong | InvalidBase64 | TooLarge | TotalTooLarge

  /**
   What the standard library contributes: how many bytes a Base64 text gives before the reader stops one byte past
   ARTIFACT_BYTES, None when it meets an error by then; lower case; and the words of an error.
   */
  datatype Library = Library(decode: Text -> Option<nat>, lower: Text -> Text, describe: ArtifactError -> Text)

  /** Text that decodes is Base64 text, and line breaks alone decode to nothing. */
  ghost predicate Sane(lib: Library) {
    && (forall t: Text {:trigger lib.decode(t)} :: lib.decode(t).Some? && lib.decode(t).value <= ARTIFACT_BYTES ==>
       forall i :: 0 <= i < |t| ==> IsBase64Byte(t[i]))
    && (forall t: Text {:trigger lib.decode(t)} :: (forall i :: 0 <= i < |t| ==> t[i] == 13) ==>
       lib.decode(t) == Some(0))
  }

  // The artifacts.

  function EncodedSize(a: Artifact): nat {
    |a.dataB64| + Count(a.dataB64, 13) + Count(a.dataB64, 10)
  }

  function EncodedTotal(artifacts: seq<Artifact>, n: nat): nat
    requires n <= |artifacts|
  {
    if n == 0 then 0 else EncodedTotal(artifacts, n - 1) + EncodedSize(artifacts[n - 1])
  }

  function DecodedSize(a: Artifact, lib: Library): nat {
    if lib.decode(a.dataB64).Some? then lib.decode(a.dataB64).value else 0
  }

  function DecodedTotal(artifacts: seq<Artifact>, n: nat, lib: Library): nat
    requires n <= |artifacts|
  {
    if n == 0 then 0 else DecodedTotal(artifacts, n - 1, lib) + DecodedSize(artifacts[n - 1], lib)
  }

  lemma {:induction false} TotalsGrow(artifacts: seq<Artifact>, m: nat, n: nat, lib: Library)
    requires m <= n <= |artifacts|
    ensures EncodedTotal(artifacts, m) <= EncodedTotal(artifacts, n)
      && DecodedTotal(artifacts, m, lib) <= DecodedTotal(artifacts, n, lib)
    decreases n
  {
    if m < n { TotalsGrow(artifacts, m, n - 1, lib); }
  }

  predicate Decodes(a: Artifact, lib: Library) {
    lib.decode(a.dataB64).Some? && lib.decode(a.dataB64).value <= ARTIFACT_BYTES
  }

  /** The limits, all at once. */
  predicate Acceptable(artifacts: seq<Artifact>, lib: Library) {
    && |artifacts| <= ARTIFACT_COUNT
    && (forall i :: 0 <= i < |artifacts| ==> |artifacts[i].name| <= ARTIFACT_NAME_BYTES)
    && EncodedTotal(artifacts, |artifacts|) <= ENCODED_LIMIT
    && (forall i {:trigger artifacts[i]} :: 0 <= i < |artifacts| ==> Decodes(artifacts[i], lib))
    && DecodedTotal(artifacts, |artifacts|, lib) <= ARTIFACT_TOTAL_BYTES
  }

  /** The names and the encoded sizes of the first n artifacts are within their limits. */
  predicate NamesFit(artifacts: seq<Artifact>, n: nat)
    requires n <= |artifacts|
  {
    EncodedTotal(artifacts, n) <= ENCODED_LIMIT
    && forall i :: 0 <= i < n ==> |artifacts[i].name| <= ARTIFACT_NAME_BYTES
  }

  predicate DataFits(artifacts: seq<Artifact>, n: nat, lib: Library)
    requires n <= |artifacts|
  {
    DecodedTotal(artifacts, n, lib) <= ARTIFACT_TOTAL_BYTES
    && forall i {:trigger artifacts[i]} :: 0 <= i < n ==> Decodes(artifacts[i], lib)
  }

  /** Artifact i is the first to break a limit, and this is the first limit it breaks. */
  ghost predicate BreaksFirst(artifacts: seq<Artifact>, i: nat, lib: Library, error: ArtifactError)
    requires i < |artifacts|
  {
    match error
    case TooMany => false
    case NameTooLong => NamesFit(artifacts, i) && |artifacts[i].name| > ARTIFACT_NAME_BYTES
    case EncodedTooLong =>
      NamesFit(artifacts, i) && |artifacts[i].name| <= ARTIFACT_NAME_BYTES
      && EncodedTotal(artifacts, i + 1) > ENCODED_LIMIT
    case InvalidBase64 => NamesFit(artifacts, |artifacts|) && DataFits(artifacts, i, lib)
                          && lib.decode(artifacts[i].dataB64).None?
    case TooLarge =>
      NamesFit(artifacts, |artifacts|) && DataFits(artifacts, i, lib)
      && lib.decode(artifacts[i].dataB64).Some? && lib.decode(artifacts[i].dataB64).value > ARTIFACT_BYTES
    case TotalTooLarge =>
      NamesFit(artifacts, |artifacts|) && DataFits(artifacts, i, lib) && Decodes(artifacts[i], lib)
      && DecodedTotal(artifacts, i + 1, lib) > ARTIFACT_TOTAL_BYTES
  }

  /** The error reported: too many first, then all names and encoded sizes, and only then the data. */
  ghost predicate Reports(artifacts: seq<Artifact>, lib: Library, error: ArtifactError) {
    if |artifacts| > ARTIFACT_COUNT then error == TooMany
    else exists i :: 0 <= i < |artifacts| && BreaksFirst(artifacts, i, lib, error)
  }

  lemma {:induction false} AcceptableExactly(artifacts: seq<Artifact>, lib: Library)
    ensures Acceptable(artifacts, lib) <==>
            |artifacts| <= ARTIFACT_COUNT && NamesFit(artifacts, |artifacts|) && DataFits(artifacts, |artifacts|, lib)
  {
  }

  lemma {:induction false} BreaksIsRefused(artifacts: seq<Artifact>, i: nat, lib: Library, error: ArtifactError)
    requires i < |artifacts| <= ARTIFACT_COUNT && BreaksFirst(artifacts, i, lib, error)
    ensures !Acceptable(artifacts, lib) && Reports(artifacts, lib, error)
  {
    TotalsGrow(artifacts, i + 1, |artifacts|, lib);
    assert !NamesFit(artifacts, |artifacts|) || !Decodes(artifacts[i], lib)
      || DecodedTotal(artifacts, |artifacts|, lib) > ARTIFACT_TOTAL_BYTES;
  }

  method CheckArtifacts(artifacts: seq<Artifact>, lib: Library) returns (error: Option<ArtifactError>)
    ensures error.None? <==> Acceptable(artifacts, lib)
    ensures error.Some? ==> Reports(artifacts, lib, error.value)
  {
    if |artifacts| > ARTIFACT_COUNT { return Some(TooMany); }
    var encodedTotal, i := 0, 0;
    while i < |artifacts|
      invariant 0 <= i <= |artifacts| && encodedTotal == EncodedTotal(artifacts, i) && NamesFit(artifacts, i)
    {
      if |artifacts[i].name| > ARTIFACT_NAME_BYTES {
        BreaksIsRefused(artifacts, i, lib, NameTooLong);
        return Some(NameTooLong);
      }
      encodedTotal := encodedTotal + |artifacts[i].dataB64|;
      if encodedTotal <= ENCODED_LIMIT {
        encodedTotal := encodedTotal + Count(artifacts[i].dataB64, 13) + Count(artifacts[i].dataB64, 10);
      }
      if encodedTotal > ENCODED_LIMIT {
        BreaksIsRefused(artifacts, i, lib, EncodedTooLong);
        return Some(EncodedTooLong);
      }
      i := i + 1;
    }
    var total := 0;
    i := 0;
    while i < |artifacts|
      invariant 0 <= i <= |artifacts| && total == DecodedTotal(artifacts, i, lib) && DataFits(artifacts, i, lib)
    {
      var decoded := lib.decode(artifacts[i].dataB64);
      if decoded.None? {
        BreaksIsRefused(artifacts, i, lib, InvalidBase64);
        return Some(InvalidBase64);
      }
      if decoded.value > ARTIFACT_BYTES {
        BreaksIsRefused(artifacts, i, lib, TooLarge);
        return Some(TooLarge);
      }
      total := total + decoded.value;
      if total > ARTIFACT_TOTAL_BYTES {
        BreaksIsRefused(artifacts, i, lib, TotalTooLarge);
        return Some(TotalTooLarge);
      }
      i := i + 1;
    }
    AcceptableExactly(artifacts, lib);
    return None;
  }

  // The diagnostics.

  function CutPoint(reason: Text, end: nat): (cut: nat)
    requires end < |reason|
    ensures cut <= end && (cut == 0 || !Utf8.IsContinuation(reason[cut]))
    ensures forall k :: cut < k <= end ==> Utf8.IsContinuation(reason[k])
  {
    if end > 0 && Utf8.IsContinuation(reason[end]) then CutPoint(reason, end - 1) else end
  }

  function Capped(t: Text, limit: nat): Text {
    if |t| > limit then t[..limit] else t
  }

  function CappedReason(reason: Text): Text {
    if |reason| > REASON_BYTES then reason[..CutPoint(reason, REASON_BYTES)] else reason
  }

  predicate Contains(t: Text, part: Text) {
    exists i {:trigger t[i..]} :: 0 <= i <= |t| && part <= t[i..]
  }

  function ReasonCode(status: Text, reason: Text, lib: Library): (code: Text)
    ensures |code| <= REASON_CODE_BYTES
  {
    var lower := lib.lower(reason);
    if status == Ascii("Timeout") || Contains(lower, Ascii("context deadline exceeded")) then Ascii("timeout")
    else if Contains(lower, Ascii("memory limit exceeded")) then Ascii("memory_limit_exceeded")
    else if Contains(lower, Ascii("workspace limit exceeded")) || Contains(lower, Ascii("workspace quota exceeded"))
            || Contains(lower, Ascii("workspace entry limit exceeded"))
               || Contains(lower, Ascii("workspace depth exceeded"))
            || Contains(lower, Ascii("workspace scan failed")) then Ascii("workspace_limit_exceeded")
    else if Contains(lower, Ascii("pids limit exceeded")) || Contains(lower, Ascii("process limit exceeded"))
      then Ascii("process_limit_exceeded")
    else if Contains(lower, Ascii("file size limit exceeded")) then Ascii("file_size_limit_exceeded")
    else if Contains(lower, Ascii("cpu time limit exceeded")) then Ascii("cpu_time_limit_exceeded")
    else []
  }

  function CappedResponse(r: Response, lib: Library): Response {
    var reason := CappedReason(r.reason);
    r.(stdout := Capped(r.stdout, OUTPUT_BYTES), stdoutTruncated := r.stdoutTruncated || |r.stdout| > OUTPUT_BYTES,
       stderr := Capped(r.stderr, OUTPUT_BYTES), stderrTruncated := r.stderrTruncated || |r.stderr| > OUTPUT_BYTES,
       reason := reason, reasonTruncated := r.reasonTruncated || |r.reason| > REASON_BYTES,
       reasonCode := if r.reasonCode == [] then ReasonCode(r.status, reason, lib) else r.reasonCode)
  }

  method CapOutputValue(value: Text) returns (capped: Text, truncated: bool)
    ensures capped == Capped(value, OUTPUT_BYTES) && truncated == (|value| > OUTPUT_BYTES)
  {
    if |value| > OUTPUT_BYTES { return value[..OUTPUT_BYTES], true; }
    return value, false;
  }

  method CapCompileResponseOutput(r: Response, lib: Library) returns (capped: Response)
    ensures capped == CappedResponse(r, lib)
  {
    var stdout, outCut := CapOutputValue(r.stdout);
    var stderr, errCut := CapOutputValue(r.stderr);
    capped := r.(stdout := stdout, stdoutTruncated := r.stdoutTruncated || outCut,
                 stderr := stderr, stderrTruncated := r.stderrTruncated || errCut);
    if |capped.reason| > REASON_BYTES {
      var end := REASON_BYTES;
      while end > 0 && Utf8.IsContinuation(capped.reason[end])
        invariant 0 <= end <= REASON_BYTES < |capped.reason|
        invariant CutPoint(capped.reason, end) == CutPoint(capped.reason, REASON_BYTES)
      {
        end := end - 1;
      }
      capped := capped.(reason := capped.reason[..end], reasonTruncated := true);
    }
    if capped.reasonCode == [] {
      capped := capped.(reasonCode := ReasonCode(capped.status, capped.reason, lib));
    }
  }

  function Empty(status: Text, reason: Text): Response {
    Response(status, [], [], [], false, false, reason, false, [])
  }

  function Rejected(r: Response, error: ArtifactError, lib: Library): Response {
    r.(status := Ascii("Internal Error"), artifacts := [],
       reason := Ascii("invalid compile result: ") + lib.describe(error),
       reasonTruncated := false, reasonCode := [])
  }

  method PrepareResponse(r: Response, lib: Library) returns (prepared: Response)
    ensures Prepares(r, lib, prepared) && Presents(r, lib, prepared)
  {
    if |r.reasonCode| > REASON_CODE_BYTES {
      return Empty(Ascii("Internal Error"), Ascii("invalid compile result: ") + Ascii("reason_code too long"));
    }
    var error := CheckArtifacts(r.artifacts, lib);
    prepared := r;
    if error.Some? { prepared := Rejected(r, error.value, lib); }
    prepared := CapCompileResponseOutput(prepared, lib);
    PreparedPresents(r, lib, prepared);
  }

  /** What a prepared response may be. */
  ghost predicate Prepares(r: Response, lib: Library, prepared: Response) {
    if |r.reasonCode| > REASON_CODE_BYTES then
      prepared == Empty(Ascii("Internal Error"), Ascii("invalid compile result: ") + Ascii("reason_code too long"))
    else if Acceptable(r.artifacts, lib) then prepared == CappedResponse(r, lib)
    else exists error :: Reports(r.artifacts, lib, error) && prepared == CappedResponse(Rejected(r, error, lib), lib)
  }

  datatype Diagnosis = Diagnosis(code: string, phrases: seq<string>)

  /** The codes of compile errors in the order in which they are looked for, with the phrases that give them away. */
  const DIAGNOSES: seq<Diagnosis> :=
    [Diagnosis("timeout", ["context deadline exceeded"]),
     Diagnosis("memory_limit_exceeded", ["memory limit exceeded"]),
     Diagnosis("workspace_limit_exceeded",
               ["workspace limit exceeded", "workspace quota exceeded", "workspace entry limit exceeded",
                "workspace depth exceeded", "workspace scan failed"]),
     Diagnosis("process_limit_exceeded", ["pids limit exceeded", "process limit exceeded"]),
     Diagnosis("file_size_limit_exceeded", ["file size limit exceeded"]),
     Diagnosis("cpu_time_limit_exceeded", ["cpu time limit exceeded"])]

  predicate Mentions(text: Text, phrases: seq<string>) {
    exists i :: 0 <= i < |phrases| && Contains(text, Ascii(phrases[i]))
  }

  predicate Applies(k: nat, status: Text, text: Text)
    requires k < |DIAGNOSES|
  {
    Mentions(text, DIAGNOSES[k].phrases) || (k == 0 && status == Ascii("Timeout"))
  }

  predicate AppliesFirst(k: nat, status: Text, text: Text)
    requires k < |DIAGNOSES|
  {
    Applies(k, status, text) && forall j: nat :: j < k ==> !Applies(j, status, text)
  }

  /** The code is that of the first diagnosis that applies, and empty if none does. */
  ghost predicate Diagnosed(status: Text, text: Text, code: Text) {
    if forall k: nat :: k < |DIAGNOSES| ==> !Applies(k, status, text) then code == []
    else exists k: nat :: k < |DIAGNOSES| && AppliesFirst(k, status, text) && code == Ascii(DIAGNOSES[k].code)
  }

  lemma {:induction false} MentionsOneMore(text: Text, phrase: string, phrases: seq<string>)
    ensures Mentions(text, [phrase] + phrases) <==> Contains(text, Ascii(phrase)) || Mentions(text, phrases)
  {
    var all := [phrase] + phrases;
    if Contains(text, Ascii(phrase)) { assert Contains(text, Ascii(all[0])); }
    if i :| 0 <= i < |phrases| && Contains(text, Ascii(phrases[i])) { assert Contains(text, Ascii(all[i + 1])); }
    if i :| 0 <= i < |all| && Contains(text, Ascii(all[i])) {
      assert i > 0 ==> Contains(text, Ascii(phrases[i - 1]));
    }
  }

  lemma {:induction false} MentionsOne(text: Text, p: string)
    ensures Mentions(text, [p]) <==> Contains(text, Ascii(p))
  {
    MentionsOneMore(text, p, []);
    assert [p] + [] == [p];
  }

  lemma {:induction false} MentionsTwo(text: Text, p: string, q: string)
    ensures Mentions(text, [p, q]) <==> Contains(text, Ascii(p)) || Contains(text, Ascii(q))
  {
    MentionsOneMore(text, p, [q]);
    MentionsOne(text, q);
    assert [p] + [q] == [p, q];
  }

  lemma {:induction false} MentionsFive(text: Text, p: string, q: string, r: string, s: string, t: string)
    ensures Mentions(text, [p, q, r, s, t]) <==>
            || Contains(text, Ascii(p)) || Contains(text, Ascii(q)) || Contains(text, Ascii(r))
            || Contains(text, Ascii(s)) || Contains(text, Ascii(t))
  {
    MentionsOneMore(text, p, [q, r, s, t]);
    MentionsOneMore(text, q, [r, s, t]);
    MentionsOneMore(text, r, [s, t]);
    MentionsTwo(text, s, t);
    assert [p] + [q, r, s, t] == [p, q, r, s, t];
    assert [q] + [r, s, t] == [q, r, s, t] && [r] + [s, t] == [r, s, t];
  }

  /** The position of the first diagnosis that applies. */
  lemma {:induction false} FirstDiagnosis(status: Text, text: Text, k: nat) returns (first: nat)
    requires k <= |DIAGNOSES| && forall j: nat :: j < k ==> !Applies(j, status, text)
    ensures k <= first <= |DIAGNOSES| && forall j: nat :: j < first ==> !Applies(j, status, text)
    ensures first < |DIAGNOSES| ==> Applies(first, status, text)
    decreases |DIAGNOSES| - k
  {
    if k < |DIAGNOSES| && !Applies(k, status, text) {
      first := FirstDiagnosis(status, text, k + 1);
    } else {
      first := k;
    }
  }

  lemma {:induction false} LimitDiagnoses(status: Text, text: Text)
    ensures Applies(0, status, text) <==>
            status == Ascii("Timeout") || Contains(text, Ascii("context deadline exceeded"))
    ensures Applies(1, status, text) <==> Contains(text, Ascii("memory limit exceeded"))
  {
    MentionsOne(text, "context deadline exceeded");
    MentionsOne(text, "memory limit exceeded");
  }

  lemma {:induction false} WorkspaceDiagnosis(status: Text, text: Text)
    ensures Applies(2, status, text) <==>
            || Contains(text, Ascii("workspace limit exceeded")) || Contains(text, Ascii("workspace quota exceeded"))
            || Contains(text, Ascii("workspace entry limit exceeded"))
            || Contains(text, Ascii("workspace depth exceeded")) || Contains(text, Ascii("workspace scan failed"))
  {
    MentionsFive(text, "workspace limit exceeded", "workspace quota exceeded", "workspace entry limit exceeded",
                 "workspace depth exceeded", "workspace scan failed");
  }

  lemma {:induction false} ProcessDiagnoses(status: Text, text: Text)
    ensures Applies(3, status, text) <==>
            Contains(text, Ascii("pids limit exceeded")) || Contains(text, Ascii("process limit exceeded"))
    ensures Applies(4, status, text) <==> Contains(text, Ascii("file size limit exceeded"))
    ensures Applies(5, status, text) <==> Contains(text, Ascii("cpu time limit exceeded"))
  {
    MentionsTwo(text, "pids limit exceeded", "process limit exceeded");
    MentionsOne(text, "file size limit exceeded");
    MentionsOne(text, "cpu time limit exceeded");
  }

  lemma {:induction false} ReasonCodeIsFirst(status: Text, reason: Text, lib: Library)
    ensures Diagnosed(status, lib.lower(reason), ReasonCode(status, reason, lib))
  {
    var text := lib.lower(reason);
    LimitDiagnoses(status, text);
    WorkspaceDiagnosis(status, text);
    ProcessDiagnoses(status, text);
    var first := FirstDiagnosis(status, text, 0);
    if first < |DIAGNOSES| {
      assert AppliesFirst(first, status, text);
      assert ReasonCode(status, reason, lib) == Ascii(DIAGNOSES[first].code);
    }
  }

  /** The first n bytes, and whether any are missing. */
  predicate IsCut(original: Text, flag: bool, limit: nat, cut: Text, cutFlag: bool) {
    && cut <= original && |cut| == (if |original| > limit then limit else |original|)
    && (cutFlag <==> flag || |original| > limit)
  }

  /** A reason as it is shown: cut before the last byte within the limit that starts a character. */
  predicate IsShown(original: Text, flag: bool, shown: Text, shownFlag: bool) {
    && (shownFlag <==> flag || |original| > 1048576)
    && shown <= original && (|original| <= 1048576 ==> shown == original)
    && (|original| > 1048576 ==>
       |shown| <= 1048576 && (shown == [] || !Utf8.IsContinuation(original[|shown|]))
       && forall k :: |shown| < k <= 1048576 ==> Utf8.IsContinuation(original[k]))
  }

  /** The refusal of a response whose artifacts break a limit, or whose reason code is too long. */
  predicate Refused(r: Response, lib: Library) {
    |r.reasonCode| > 128 || !Acceptable(r.artifacts, lib)
  }

  ghost predicate Presents(r: Response, lib: Library, prepared: Response) {
    && prepared.status == (if Refused(r, lib) then Ascii("Internal Error") else r.status)
    && prepared.artifacts == (if Refused(r, lib) then [] else r.artifacts)
    && (if |r.reasonCode| > 128 then
          && prepared.stdout == [] && prepared.stderr == [] && prepared.reasonCode == []
          && !prepared.stdoutTruncated && !prepared.stderrTruncated && !prepared.reasonTruncated
          && prepared.reason == Ascii("invalid compile result: ") + Ascii("reason_code too long")
        else
          && IsCut(r.stdout, r.stdoutTruncated, 1048576, prepared.stdout, prepared.stdoutTruncated)
          && IsCut(r.stderr, r.stderrTruncated, 1048576, prepared.stderr, prepared.stderrTruncated)
          && (if Refused(r, lib) then
                exists error ::
                  && Reports(r.artifacts, lib, error)
                  && IsShown(Ascii("invalid compile result: ") + lib.describe(error), false, prepared.reason,
                             prepared.reasonTruncated)
              else IsShown(r.reason, r.reasonTruncated, prepared.reason, prepared.reasonTruncated))
          && (if !Refused(r, lib) && r.reasonCode != [] then prepared.reasonCode == r.reasonCode
              else Diagnosed(prepared.status, lib.lower(prepared.reason), prepared.reasonCode)))
  }

  lemma {:induction false} CappedIsShown(r: Response, lib: Library)
    ensures var c := CappedResponse(r, lib);
            && IsCut(r.stdout, r.stdoutTruncated, 1048576, c.stdout, c.stdoutTruncated)
            && IsCut(r.stderr, r.stderrTruncated, 1048576, c.stderr, c.stderrTruncated)
            && IsShown(r.reason, r.reasonTruncated, c.reason, c.reasonTruncated)
  {
  }

  /** A prepared response says what it should: the refusal, or what was given, cut where it is too long. */
  lemma {:induction false} PreparedPresents(r: Response, lib: Library, prepared: Response)
    requires Prepares(r, lib, prepared)
    ensures Presents(r, lib, prepared)
  {
    if |r.reasonCode| <= REASON_CODE_BYTES {
      if Acceptable(r.artifacts, lib) {
        CappedIsShown(r, lib);
      } else {
        var error :| Reports(r.artifacts, lib, error) && prepared == CappedResponse(Rejected(r, error, lib), lib);
        CappedIsShown(Rejected(r, error, lib), lib);
      }
      ReasonCodeIsFirst(prepared.status, prepared.reason, lib);
    }
  }

  /** A cut reason is a prefix, and of valid text at most three bytes more are lost and the rest is valid. */
  lemma {:induction false} CutReasonIsUtf8(reason: Text)
    ensures CappedReason(reason) <= reason && |CappedReason(reason)| <= REASON_BYTES
    ensures |reason| <= REASON_BYTES ==> CappedReason(reason) == reason
    ensures Utf8.Valid(reason) ==> Utf8.Valid(CappedReason(reason))
    ensures Utf8.Valid(reason) && |reason| > REASON_BYTES ==> |CappedReason(reason)| >= REASON_BYTES - 3
  {
    if |reason| > REASON_BYTES && Utf8.Valid(reason) {
      var start := Utf8.StartIsNear(reason, REASON_BYTES);
      var cut := CutPoint(reason, REASON_BYTES);
      assert start <= cut;
      Utf8.CutIsValid(reason, cut);
    }
  }

  // The event.

  /** A member after the first: a comma, the quoted key, a colon and the value. */
  function Member(key: string, value: nat): nat {
    |key| + 4 + value
  }

  function Quoted(t: Text): nat {
    2 + Escaped(t)
  }

  function OmitEmpty(key: string, t: Text): nat {
    if t == [] then 0 else Member(key, Quoted(t))
  }

  function Flag(key: string, b: bool): nat {
    if b then Member(key, 4) else 0
  }

  /** An object's braces, and no comma before its first member. */
  function ArtifactBytes(a: Artifact): nat {
    1 + Member("name", Quoted(a.name)) + Member("data_b64", Quoted(a.dataB64)) + OmitEmpty("mode", a.mode)
  }

  /** The artifacts with a comma after each. */
  function ArtifactsBytes(artifacts: seq<Artifact>): nat {
    if artifacts == [] then 0 else ArtifactBytes(artifacts[0]) + 1 + ArtifactsBytes(artifacts[1..])
  }

  /** The members after the artifacts. */
  function DiagnosticsBytes(r: Response): nat {
    OmitEmpty("stdout", r.stdout) + OmitEmpty("stderr", r.stderr)
    + Flag("stdout_truncated", r.stdoutTruncated) + Flag("stderr_truncated", r.stderrTruncated)
    + OmitEmpty("reason", r.reason) + Flag("reason_truncated", r.reasonTruncated)
      + OmitEmpty("reason_code", r.reasonCode)
  }

  /** The length of the response as JSON. */
  function EventBytes(r: Response): nat {
    1 + Member("status", Quoted(r.status))
    + (if r.artifacts == [] then 0 else Member("artifacts", 1 + ArtifactsBytes(r.artifacts)))
    + DiagnosticsBytes(r)
  }

  /** What the limits leave to the caller: the modes and the status are not bounded. */
  function Unbounded(status: Text, modes: seq<Text>): nat {
    Escaped(status) + ModesBytes(modes)
  }

  function ModesBytes(modes: seq<Text>): nat {
    if modes == [] then 0 else OmitEmpty("mode", modes[0]) + ModesBytes(modes[1..])
  }

  function Modes(artifacts: seq<Artifact>): (modes: seq<Text>)
    ensures |modes| == |artifacts|
  {
    if artifacts == [] then [] else [artifacts[0].mode] + Modes(artifacts[1..])
  }

  /** The most that an artifact takes beside its data and its mode: braces, a comma, keys, and an escaped name. */
  const ARTIFACT_ROOM := 24602

  /** The most that the diagnostics take. */
  function MaxDiagnostics(): nat {
    Member("stdout", 2 + 6 * OUTPUT_BYTES) + Member("stderr", 2 + 6 * OUTPUT_BYTES)
    + Member("stdout_truncated", 4) + Member("stderr_truncated", 4)
    + Member("reason", 2 + 6 * REASON_BYTES) + Member("reason_truncated", 4)
      + Member("reason_code", 2 + 6 * REASON_CODE_BYTES)
  }

  /** The most that everything else takes, with n artifacts. */
  function Bounded(n: nat): nat {
    1 + Member("status", 2)
    + (if n == 0 then 0 else Member("artifacts", 1 + n * ARTIFACT_ROOM + ENCODED_LIMIT))
    + MaxDiagnostics()
  }

  lemma {:induction false} EncodedTotalOfTail(artifacts: seq<Artifact>, n: nat)
    requires 1 <= n <= |artifacts|
    ensures EncodedTotal(artifacts, n) == EncodedSize(artifacts[0]) + EncodedTotal(artifacts[1..], n - 1)
    decreases n
  {
    if n > 1 { EncodedTotalOfTail(artifacts, n - 1); }
  }

  lemma {:induction false} ArtifactIsBounded(a: Artifact)
    requires |a.name| <= ARTIFACT_NAME_BYTES && Escaped(a.dataB64) == EncodedSize(a)
    ensures ArtifactBytes(a) + 1 <= ARTIFACT_ROOM + EncodedSize(a) + OmitEmpty("mode", a.mode)
  {
    AtMostSixfold(a.name);
  }

  lemma {:induction false} ArtifactsAreBounded(artifacts: seq<Artifact>)
    requires forall i :: 0 <= i < |artifacts| ==> |artifacts[i].name| <= ARTIFACT_NAME_BYTES
    requires forall i :: 0 <= i < |artifacts| ==> Escaped(artifacts[i].dataB64) == EncodedSize(artifacts[i])
    ensures ArtifactsBytes(artifacts) <=
            |artifacts| * ARTIFACT_ROOM + EncodedTotal(artifacts, |artifacts|) + ModesBytes(Modes(artifacts))
    decreases |artifacts|
  {
    if artifacts != [] {
      ArtifactIsBounded(artifacts[0]);
      EncodedTotalOfTail(artifacts, |artifacts|);
      ArtifactsAreBounded(artifacts[1..]);
      assert Modes(artifacts)[1..] == Modes(artifacts[1..]);
    }
  }

  lemma {:induction false} OmitAtMost(key: string, t: Text, n: nat)
    requires |t| <= n
    ensures OmitEmpty(key, t) <= Member(key, 2 + 6 * n)
  {
    AtMostSixfold(t);
  }

  lemma {:induction false} DiagnosticsAreBounded(r: Response)
    requires |r.stdout| <= OUTPUT_BYTES && |r.stderr| <= OUTPUT_BYTES && |r.reason| <= REASON_BYTES
      && |r.reasonCode| <= REASON_CODE_BYTES
    ensures DiagnosticsBytes(r) <= MaxDiagnostics()
  {
    OmitAtMost("stdout", r.stdout, OUTPUT_BYTES);
    OmitAtMost("stderr", r.stderr, OUTPUT_BYTES);
    OmitAtMost("reason", r.reason, REASON_BYTES);
    OmitAtMost("reason_code", r.reasonCode, REASON_CODE_BYTES);
  }

  lemma {:induction false} EventIsBounded(r: Response)
    requires |r.artifacts| > 0 ==>
               ArtifactsBytes(r.artifacts) <= |r.artifacts| * ARTIFACT_ROOM + ENCODED_LIMIT
                 + ModesBytes(Modes(r.artifacts))
    requires |r.stdout| <= OUTPUT_BYTES && |r.stderr| <= OUTPUT_BYTES && |r.reason| <= REASON_BYTES
      && |r.reasonCode| <= REASON_CODE_BYTES
    ensures EventBytes(r) <= Bounded(|r.artifacts|) + Unbounded(r.status, Modes(r.artifacts))
  {
    DiagnosticsAreBounded(r);
  }

  lemma {:induction false} CappedIsBounded(r: Response, lib: Library)
    requires Sane(lib) && Acceptable(r.artifacts, lib) && |r.reasonCode| <= REASON_CODE_BYTES
    ensures EventBytes(CappedResponse(r, lib)) <= Bounded(|r.artifacts|) + Unbounded(r.status, Modes(r.artifacts))
  {
    forall i | 0 <= i < |r.artifacts| ensures Escaped(r.artifacts[i].dataB64) == EncodedSize(r.artifacts[i]) {
      assert Decodes(r.artifacts[i], lib);
      Base64Escaped(r.artifacts[i].dataB64);
    }
    ArtifactsAreBounded(r.artifacts);
    CutReasonIsUtf8(r.reason);
    EventIsBounded(CappedResponse(r, lib));
  }

  /** What a caller can check beforehand: the statuses and modes, escaped, leave the rest its room. */
  predicate Leaves(status: Text, modes: seq<Text>) {
    |modes| > ARTIFACT_COUNT || Unbounded(status, modes) + Bounded(|modes|) <= SSE_EVENT_BYTES
  }

  lemma {:induction false} SmallEventFits(r: Response, lib: Library)
    requires Sane(lib) && r.artifacts == [] && |r.reasonCode| <= REASON_CODE_BYTES && |r.status| <= 14
    ensures EventBytes(CappedResponse(r, lib)) <= SSE_EVENT_BYTES
  {
    CappedIsBounded(r, lib);
    AtMostSixfold(r.status);
    assert Modes(r.artifacts) == [];
  }

  /** For any artifacts and diagnostics the prepared event fits, provided that the modes and the status leave room. */
  lemma {:induction false} PreparedEventFits(r: Response, lib: Library, prepared: Response)
    requires Sane(lib) && Prepares(r, lib, prepared) && Leaves(r.status, Modes(r.artifacts))
    ensures EventBytes(prepared) <= SSE_EVENT_BYTES
  {
    if |r.reasonCode| > REASON_CODE_BYTES {
      SmallEventFits(prepared, lib);
      SettledResponse(prepared, lib);
    } else if Acceptable(r.artifacts, lib) {
      CappedIsBounded(r, lib);
    } else {
      var error :| prepared == CappedResponse(Rejected(r, error, lib), lib);
      SmallEventFits(Rejected(r, error, lib), lib);
    }
  }

  // The room is exact.

  const BIG := Repeated(0, OUTPUT_BYTES)

  function WorstArtifacts(modes: seq<Text>, data: Text): (artifacts: seq<Artifact>)
    ensures |artifacts| == |modes|
    ensures forall i :: 0 <= i < |modes| ==>
              artifacts[i] == Artifact(Repeated(0, ARTIFACT_NAME_BYTES), if i == 0 then data else [], modes[i])
  {
    if modes == [] then []
    else [Artifact(Repeated(0, ARTIFACT_NAME_BYTES), data, modes[0])] + WorstArtifacts(modes[1..], [])
  }

  /** As many escaped bytes everywhere as the limits allow. */
  function Worst(status: Text, modes: seq<Text>): Response {
    Response(status, WorstArtifacts(modes, Repeated(13, ENCODED_LIMIT / 2)), BIG, BIG, true, true, BIG, true,
      Repeated(0, REASON_CODE_BYTES))
  }

  lemma {:induction false} WorstArtifactsSize(modes: seq<Text>, data: Text)
    requires Escaped(data) == |data| + Count(data, 13) + Count(data, 10)
    ensures var artifacts := WorstArtifacts(modes, data);
            && Modes(artifacts) == modes
            && EncodedTotal(artifacts, |artifacts|) == (if modes == [] then 0 else Escaped(data))
            && ArtifactsBytes(artifacts) ==
               |modes| * ARTIFACT_ROOM + EncodedTotal(artifacts, |artifacts|) + ModesBytes(modes)
    decreases |modes|
  {
    if modes != [] {
      var artifacts := WorstArtifacts(modes, data);
      assert artifacts[1..] == WorstArtifacts(modes[1..], []);
      WorstArtifactsSize(modes[1..], []);
      EncodedTotalOfTail(artifacts, |artifacts|);
      RepeatedEscaped(0, ARTIFACT_NAME_BYTES);
      assert ArtifactBytes(artifacts[0]) + 1 == ARTIFACT_ROOM + Escaped(data) + OmitEmpty("mode", modes[0]);
      assert Modes(artifacts) == [modes[0]] + Modes(artifacts[1..]) && [modes[0]] + modes[1..] == modes;
    }
  }

  lemma {:induction false} NothingDecoded(artifacts: seq<Artifact>, n: nat, lib: Library)
    requires n <= |artifacts| && forall i :: 0 <= i < n ==> lib.decode(artifacts[i].dataB64) == Some(0)
    ensures DecodedTotal(artifacts, n, lib) == 0
    decreases n
  {
    if n > 0 { NothingDecoded(artifacts, n - 1, lib); }
  }

  lemma {:induction false} WorstIsAcceptable(modes: seq<Text>, data: Text, lib: Library)
    requires Sane(lib) && |modes| <= ARTIFACT_COUNT && (forall j :: 0 <= j < |data| ==> data[j] == 13)
    requires EncodedTotal(WorstArtifacts(modes, data), |modes|) <= ENCODED_LIMIT
    ensures Acceptable(WorstArtifacts(modes, data), lib)
  {
    var artifacts := WorstArtifacts(modes, data);
    assert lib.decode(data) == Some(0) && lib.decode([]) == Some(0);
    NothingDecoded(artifacts, |modes|, lib);
  }

  lemma {:induction false} WorstIsPrepared(status: Text, modes: seq<Text>, lib: Library)
    requires Sane(lib) && |modes| <= ARTIFACT_COUNT
    ensures Prepares(Worst(status, modes), lib, Worst(status, modes))
  {
    var data := Repeated(13, ENCODED_LIMIT / 2);
    RepeatedEscaped(13, ENCODED_LIMIT / 2);
    WorstArtifactsSize(modes, data);
    WorstIsAcceptable(modes, data, lib);
    SettledResponse(Worst(status, modes), lib);
  }

  lemma {:induction false} SettledResponse(r: Response, lib: Library)
    requires |r.stdout| <= OUTPUT_BYTES && |r.stderr| <= OUTPUT_BYTES && |r.reason| <= REASON_BYTES
    ensures r.reasonCode != [] ==> CappedResponse(r, lib) == r
    ensures EventBytes(r) <= EventBytes(CappedResponse(r, lib))
  {
  }

  lemma {:induction false} WorstArtifactsBytes(modes: seq<Text>)
    ensures var artifacts := WorstArtifacts(modes, Repeated(13, ENCODED_LIMIT / 2));
            && Modes(artifacts) == modes
            && ArtifactsBytes(artifacts) ==
               |modes| * ARTIFACT_ROOM + (if modes == [] then 0 else ENCODED_LIMIT) + ModesBytes(modes)
  {
    var data := Repeated(13, ENCODED_LIMIT / 2);
    WorstDataSize();
    assert Escaped(data) == |data| + Count(data, 13) + Count(data, 10);
    WorstArtifactsSize(modes, data);
  }

  /** Every line break takes two bytes, so half the limit fills it. */
  lemma {:induction false} WorstDataSize()
    ensures var data := Repeated(13, ENCODED_LIMIT / 2);
            Escaped(data) == ENCODED_LIMIT && Count(data, 13) == |data| && Count(data, 10) == 0
              && 2 * |data| == ENCODED_LIMIT
  {
    RepeatedEscaped(13, ENCODED_LIMIT / 2);
    assert ENCODED_LIMIT == 67110912;
  }

  lemma {:induction false} WorstSize(status: Text, modes: seq<Text>)
    ensures Modes(Worst(status, modes).artifacts) == modes
    ensures EventBytes(Worst(status, modes)) == Unbounded(status, modes) + Bounded(|modes|)
  {
    var worst := Worst(status, modes);
    WorstArtifactsBytes(modes);
    WorstOutputsSize(worst);
    assert worst.artifacts == [] <==> |modes| == 0;
  }

  lemma {:induction false} WorstOutputsSize(r: Response)
    requires r.stdout == r.stderr == r.reason == BIG && r.reasonCode == Repeated(0, REASON_CODE_BYTES)
    requires r.stdoutTruncated && r.stderrTruncated && r.reasonTruncated
    ensures DiagnosticsBytes(r) == MaxDiagnostics()
  {
    RepeatedEscaped(0, OUTPUT_BYTES);
    RepeatedEscaped(0, REASON_CODE_BYTES);
  }

  /**
   Main result: exactly which statuses and modes are safe. Whatever the names, data and diagnostics, the prepared event
   fits 96 MiB iff the status and the modes leave room; when they do not, Worst is a response that does not fit.
   */
  lemma {:induction false} FitsIffRoomIsLeft(status: Text, modes: seq<Text>, lib: Library)
    requires Sane(lib)
    ensures Leaves(status, modes) <==>
            forall r: Response, prepared {:trigger Prepares(r, lib, prepared)} ::
              r.status == status && Modes(r.artifacts) == modes && Prepares(r, lib, prepared) ==>
                EventBytes(prepared) <= SSE_EVENT_BYTES
  {
    if Leaves(status, modes) {
      forall r: Response, prepared | r.status == status && Modes(r.artifacts) == modes && Prepares(r, lib, prepared)
        ensures EventBytes(prepared) <= SSE_EVENT_BYTES
      {
        PreparedEventFits(r, lib, prepared);
      }
    } else {
      WorstIsPrepared(status, modes, lib);
      WorstSize(status, modes);
      var worst := Worst(status, modes);
      assert Prepares(worst, lib, worst);
    }
  }

  /** A simple response that does not fit: one empty artifact with a mode of 17,000,000 zero bytes. */
  const LONG_MODE := Repeated(0, 17000000)

  lemma {:induction false} LongModeBreaksTheLimit(lib: Library, prepared: Response)
    requires Sane(lib)
    requires var r := Response(Ascii("OK"), [Artifact(Ascii("a"), [], LONG_MODE)], [], [], false, false, [], false, []);
             Prepares(r, lib, prepared)
    ensures EventBytes(prepared) > SSE_EVENT_BYTES && !Leaves(prepared.status, [LONG_MODE])
  {
    var artifacts := [Artifact(Ascii("a"), [], LONG_MODE)];
    OneEmptyArtifact(artifacts[0], lib);
    assert prepared.status == Ascii("OK") && prepared.artifacts == artifacts;
    RepeatedEscaped(0, 17000000);
    assert ArtifactsBytes(artifacts) >= ArtifactBytes(artifacts[0]) >= 6 * 17000000;
    assert ModesBytes([LONG_MODE]) >= 6 * 17000000;
  }

  lemma {:induction false} OneEmptyArtifact(a: Artifact, lib: Library)
    requires Sane(lib) && |a.name| <= ARTIFACT_NAME_BYTES && a.dataB64 == []
    ensures Acceptable([a], lib)
  {
    var empty: Text := [];
    assert lib.decode(empty) == Some(0);
    assert EncodedTotal([a], 0) == 0 && DecodedTotal([a], 0, lib) == 0;
    assert Decodes(a, lib);
  }

  lemma {:induction false} KnownModesAreShort(modes: seq<Text>)
    requires forall i :: 0 <= i < |modes| ==> modes[i] == [] || modes[i] == Ascii("exec")
    ensures ModesBytes(modes) <= 34 * |modes|
    decreases |modes|
  {
    if modes != [] {
      AtMostSixfold(modes[0]);
      KnownModesAreShort(modes[1..]);
    }
  }

  /** The statuses and modes that compilers and the remote runner let through all leave room. */
  lemma {:induction false} KnownStatusesFit(r: Response, lib: Library, prepared: Response)
    requires Sane(lib) && Prepares(r, lib, prepared)
    requires r.status in {Ascii("OK"), Ascii("Compile Error"), Ascii("Timeout"), Ascii("Invalid Request"),
      Ascii("Internal Error")}
    requires forall i :: 0 <= i < |r.artifacts| ==> r.artifacts[i].mode in {[], Ascii("exec")}
    ensures EventBytes(prepared) <= SSE_EVENT_BYTES
  {
    ModesAt(r.artifacts);
    KnownStatusesLeave(r.status, Modes(r.artifacts));
    PreparedEventFits(r, lib, prepared);
  }

  lemma {:induction false} KnownStatusesLeave(status: Text, modes: seq<Text>)
    requires |status| <= 15 && forall i :: 0 <= i < |modes| ==> modes[i] == [] || modes[i] == Ascii("exec")
    ensures Leaves(status, modes)
  {
    KnownModesAreShort(modes);
    AtMostSixfold(status);
  }

  lemma {:induction false} ModesAt(artifacts: seq<Artifact>)
    ensures forall i :: 0 <= i < |artifacts| ==> Modes(artifacts)[i] == artifacts[i].mode
    decreases |artifacts|
  {
    if artifacts != [] {
      ModesAt(artifacts[1..]);
      forall i | 0 <= i < |artifacts| ensures Modes(artifacts)[i] == artifacts[i].mode {
        if i > 0 { assert artifacts[i] == artifacts[1..][i - 1]; }
      }
    }
  }

  // Output captured piece by piece.

  class CappedTextBuffer {
    const limit: int
    var buf: Text
    var truncated: bool

    constructor (limit: int)
      ensures this.limit == limit && buf == [] && !truncated
    {
      this.limit, buf, truncated := limit, [], false;
    }

    /** Whatever has been appended so far, the buffer holds its first limit bytes. */
    ghost predicate Holds(all: Text)
      reads this
    {
      if limit <= 0 then buf == [] && !truncated
      else buf == Capped(all, limit) && truncated == (|all| > limit)
    }

    method Append(value: Text, ghost all: Text)
      requires Holds(all)
      modifies this
      ensures Holds(all + value)
    {
      if value == [] || limit <= 0 {
        assert value == [] ==> all + value == all;
        return;
      }
      var remaining := limit - |buf|;
      if remaining <= 0 {
        assert |all| >= limit && (all + value)[..limit] == buf;
        truncated := true;
        return;
      }
      assert buf == all;
      if |value| > remaining {
        buf := buf + value[..remaining];
        truncated := true;
        assert buf == (all + value)[..limit];
        return;
      }
      buf := buf + value;
    }
  }
}
