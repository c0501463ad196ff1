/**
 The bounded decoder of internal/api/json_collections.go.  Requests are decoded a
 token at a time against a schema; the reference is a recursion over the JSON
 value that the tokens spell.
 */
module JsonDecoder {
  import opened Common

  datatype Json =
    | Null | Bool(b: bool) | Num(text: string) | Str(s: string)
    | Arr(elems: seq<Json>) | Obj(members: seq<Member>)

  datatype Member = Member(key: string, value: Json)

  datatype Token = TNull | TBool(b: bool) | TNum(text: string) | TStr(s: string) | Open(curly: bool)
    | Close(curly: bool)

  function Tokens(j: Json): seq<Token> {
    match j
    case Null => [TNull]
    case Bool(b) => [TBool(b)]
    case Num(t) => [TNum(t)]
    case Str(s) => [TStr(s)]
    case Arr(elems) => [Open(false)] + (ElemTokens(elems) + [Close(false)])
    case Obj(members) => [Open(true)] + (MemberTokens(members) + [Close(true)])
  }

  function ElemTokens(elems: seq<Json>): seq<Token> {
    if elems == [] then [] else Tokens(elems[0]) + ElemTokens(elems[1..])
  }

  function MemberTokens(members: seq<Member>): seq<Token> {
    if members == [] then [] else [TStr(members[0].key)] + (Tokens(members[0].value) + MemberTokens(members[1..]))
  }

  // Schemas and values.

  /** What decoding a plain field reports; a wrong type below the field itself names where. */
  datatype Outcome = Fine | WrongType(field: string) | Unknown(key: string) | Fault

  /** `Plain` is decoded by the standard decoder, which `judge` stands for; the rest is decoded token by token. */
  datatype Schema =
    | Plain(judge: Json -> Outcome)
    | Struct(fields: seq<Field>)
    | Slice(limit: nat, elem: Schema)
    | Map(limit: nat, elem: Schema)
    | Pointer(target: Schema)

  datatype Field = Field(name: string, schema: Schema)

  /** A slice keeps the elements beyond its length that its backing array still holds. */
  datatype Value =
    | PlainV(content: Option<Json>)
    | StructV(fields: seq<Value>)
    | SliceV(elems: seq<Value>, spare: seq<Value>)
    | MapV(entries: map<string, Value>)
    | PointerV(target: Option<Value>)

  datatype Error = Limit(path: string, limit: nat) | TypeMismatch(path: string) | UnknownField(key: string)
    | Unexpected | Broken

  function Zero(s: Schema): (v: Value)
    ensures Shaped(v, s)
  {
    match s
    case Plain(_) => PlainV(None)
    case Struct(fields) => StructV(seq(|fields|, i requires 0 <= i < |fields| => Zero(fields[i].schema)))
    case Slice(_, _) => SliceV([], [])
    case Map(_, _) => MapV(map[])
    case Pointer(_) => PointerV(None)
  }

  /** A value of the shape the schema describes. */
  predicate Shaped(v: Value, s: Schema)
    decreases s, v
  {
    match s
    case Plain(_) => v.PlainV?
    case Struct(fields) =>
      v.StructV? && |v.fields| == |fields| && forall i :: 0 <= i < |fields| ==> Shaped(v.fields[i], fields[i].schema)
    case Slice(limit, elem) =>
      && v.SliceV? && |v.elems| <= limit
      && (forall e :: e in v.elems ==> Shaped(e, elem)) && (forall e :: e in v.spare ==> Shaped(e, elem))
    case Map(limit, elem) =>
      v.MapV? && |v.entries| <= limit && forall k :: k in v.entries ==> Shaped(v.entries[k], elem)
    case Pointer(target) => v.PointerV? && (v.target.Some? ==> Shaped(v.target.value, target))
  }

  // Field lookup: an exact match wins over one that differs in case only.

  function LowerChar(ch: char): char {
    if 'A' <= ch <= 'Z' then (ch as int + 32) as char else ch
  }

  function Lower(s: string): string {
    seq(|s|, i requires 0 <= i < |s| => LowerChar(s[i]))
  }

  function FindField(fields: seq<Field>, key: string, fold: bool, from: nat): (i: Option<nat>)
    requires from <= |fields|
    ensures i.Some? ==> from <= i.value < |fields|
    decreases |fields| - from
  {
    if from == |fields| then None
    else if (if fold then Lower(fields[from].name) == Lower(key) else fields[from].name == key) then Some(from)
    else FindField(fields, key, fold, from + 1)
  }

  function Lookup(fields: seq<Field>, key: string): (i: Option<nat>)
    ensures i.Some? ==> i.value < |fields|
  {
    var exact := FindField(fields, key, false, 0);
    if exact.Some? then exact else FindField(fields, key, true, 0)
  }

  function Join(path: string, name: string): string {
    if path == "" then name else path + "." + name
  }

  // The reference: decoding a whole JSON value.

  datatype Out = Out(value: Value, first: Option<Error>, err: Option<Error>)

  /** The first type or unknown-field error is kept; decoding goes on. */
  function Remember(first: Option<Error>, e: Error): Option<Error> {
    if first.Some? then first else Some(e)
  }

  /** Pointers are followed only to values that are decoded token by token. */
  predicate Proper(s: Schema) {
    match s
    case Plain(_) => true
    case Struct(fields) => forall i :: 0 <= i < |fields| ==> Proper(fields[i].schema)
    case Slice(_, elem) => Proper(elem)
    case Map(_, elem) => Proper(elem)
    case Pointer(target) => !target.Plain? && Proper(target)
  }

  /** Where a type error is reported: at the field, or at a field of it. */
  function Located(path: string, field: string): string {
    if field == "" then path else Join(path, field)
  }

  /** The errors that do not stop decoding. */
  predicate IsRemembered(o: Outcome) {
    o.WrongType? || o.Unknown?
  }

  function ErrorOf(o: Outcome, path: string): Error
    requires !o.Fine?
  {
    match o
    case WrongType(field) => TypeMismatch(Located(path, field))
    case Unknown(key) => UnknownField(key)
    case Fault => Broken
  }

  function DecodePlain(v: Value, judge: Json -> Outcome, j: Json, path: string, first: Option<Error>): Out {
    var o := judge(j);
    if o.Fine? then Out(PlainV(Some(j)), first, None)
    else if IsRemembered(o) then Out(v, Remember(first, ErrorOf(o, path)), None)
    else Out(v, first, Some(ErrorOf(o, path)))
  }

  function Nulled(v: Value, s: Schema): Value {
    match s
    case Slice(_, _) => SliceV([], [])
    case Map(_, _) => MapV(map[])
    case Pointer(_) => PointerV(None)
    case _ => v
  }

  predicate Fits(s: Schema, j: Json) {
    if s.Slice? then j.Arr? else j.Obj?
  }

  function Decode(v: Value, s: Schema, j: Json, path: string, first: Option<Error>): (o: Out)
    requires Shaped(v, s)
    ensures Shaped(o.value, s)
    decreases j, 1, s
  {
    if s.Plain? then DecodePlain(v, s.judge, j, path, first)
    else if j.Null? then Out(Nulled(v, s), first, None)
    else if s.Pointer? then
      var o := Decode(if v.target.Some? then v.target.value else Zero(s.target), s.target, j, path, first);
      o.(value := PointerV(Some(o.value)))
    else if !Fits(s, j) then Out(v, Remember(first, TypeMismatch(path)), None)
    else if s.Struct? then DecodeMembers(v, s.fields, j.members, path, first)
    else if s.Slice? then DecodeElems(v, s.limit, s.elem, j.elems, 0, path, first)
    else DecodeEntries(v, s.limit, s.elem, j.members, path, first)
  }

  function DecodeMembers(v: Value, fields: seq<Field>, members: seq<Member>, path: string,
    first: Option<Error>): (o: Out)
    requires Shaped(v, Struct(fields))
    ensures Shaped(o.value, Struct(fields))
    decreases members, 0
  {
    if members == [] then Out(v, first, None)
    else
      var i := Lookup(fields, members[0].key);
      if i.None? then DecodeMembers(v, fields, members[1..], path, Remember(first, UnknownField(members[0].key)))
      else
        var field := fields[i.value];
        var o := Decode(v.fields[i.value], field.schema, members[0].value, Join(path, field.name), first);
        var v' := StructV(v.fields[i.value := o.value]);
        if o.err.Some? then o.(value := v') else DecodeMembers(v', fields, members[1..], path, o.first)
  }

  /** Makes element `n` addressable, reusing an element of the backing array when there is one. */
  function Expose(v: Value, elem: Schema, n: nat): Value
    requires v.SliceV? && n <= |v.elems|
  {
    if n < |v.elems| then v
    else if v.spare == [] then SliceV(v.elems + [Zero(elem)], [])
    else SliceV(v.elems + [v.spare[0]], v.spare[1..])
  }

  /** The slice cut to the `n` elements decoded. */
  function Cut(v: Value, n: nat): Value
    requires v.SliceV? && n <= |v.elems|
  {
    if n == 0 then SliceV([], []) else SliceV(v.elems[..n], v.elems[n..] + v.spare)
  }

  lemma {:induction false} ExposeShaped(v: Value, limit: nat, elem: Schema, n: nat)
    requires Shaped(v, Slice(limit, elem)) && n <= |v.elems| && n < limit
    ensures Shaped(Expose(v, elem, n), Slice(limit, elem)) && n < |Expose(v, elem, n).elems|
  {
  }

  lemma {:induction false} CutShaped(v: Value, limit: nat, elem: Schema, n: nat)
    requires Shaped(v, Slice(limit, elem)) && n <= |v.elems|
    ensures Shaped(Cut(v, n), Slice(limit, elem))
  {
  }

  function DecodeElems(v: Value, limit: nat, elem: Schema, elems: seq<Json>, n: nat, path: string,
    first: Option<Error>): (o: Out)
    requires Shaped(v, Slice(limit, elem)) && n <= |v.elems|
    ensures Shaped(o.value, Slice(limit, elem))
    decreases elems, 0
  {
    if elems == [] then
      CutShaped(v, limit, elem, n);
      Out(Cut(v, n), first, None)
    else if n >= limit then Out(v, first, Some(Limit(path, limit)))
    else
      ExposeShaped(v, limit, elem, n);
      var v1 := Expose(v, elem, n);
      var o := Decode(v1.elems[n], elem, elems[0], path, first);
      var v2 := v1.(elems := v1.elems[n := o.value]);
      if o.err.Some? then o.(value := v2) else DecodeElems(v2, limit, elem, elems[1..], n + 1, path, o.first)
  }

  function DecodeEntries(v: Value, limit: nat, elem: Schema, members: seq<Member>, path: string,
    first: Option<Error>): (o: Out)
    requires Shaped(v, Map(limit, elem))
    ensures Shaped(o.value, Map(limit, elem))
    decreases members, 0
  {
    if members == [] then Out(v, first, None)
    else if members[0].key !in v.entries && |v.entries| >= limit then Out(v, first, Some(Limit(path, limit)))
    else
      var o := Decode(Zero(elem), elem, members[0].value, path, first);
      if o.err.Some? then o.(value := v)
      else DecodeEntries(MapV(v.entries[members[0].key := o.value]), limit, elem, members[1..], path, o.first)
  }

  // Reading one complete value from a token stream.

  function ReadValue(ts: seq<Token>): (r: Option<(Json, seq<Token>)>)
    ensures r.Some? ==> |r.value.1| < |ts|
    decreases |ts|, 0
  {
    if ts == [] then None
    else match ts[0]
      case TNull => Some((Null, ts[1..]))
      case TBool(b) => Some((Bool(b), ts[1..]))
      case TNum(t) => Some((Num(t), ts[1..]))
      case TStr(s) => Some((Str(s), ts[1..]))
      case Close(_) => None
      case Open(curly) =>
        if curly then
          var r := ReadMembers(ts[1..]);
          if r.None? then None else Some((Obj(r.value.0), r.value.1))
        else
          var r := ReadElems(ts[1..]);
          if r.None? then None else Some((Arr(r.value.0), r.value.1))
  }

  function ReadElems(ts: seq<Token>): (r: Option<(seq<Json>, seq<Token>)>)
    ensures r.Some? ==> |r.value.1| < |ts|
    decreases |ts|, 1
  {
    if ts == [] then None
    else if ts[0].Close? then if ts[0].curly then None else Some(([], ts[1..]))
    else
      var v := ReadValue(ts);
      if v.None? then None else
      var r := ReadElems(v.value.1);
      if r.None? then None else Some(([v.value.0] + r.value.0, r.value.1))
  }

  function ReadMembers(ts: seq<Token>): (r: Option<(seq<Member>, seq<Token>)>)
    ensures r.Some? ==> |r.value.1| < |ts|
    decreases |ts|, 1
  {
    if ts == [] then None
    else match ts[0]
      case Close(curly) => if curly then Some(([], ts[1..])) else None
      case TStr(key) =>
        var v := ReadValue(ts[1..]);
        if v.None? then None else
        var r := ReadMembers(v.value.1);
        if r.None? then None else Some(([Member(key, v.value.0)] + r.value.0, r.value.1))
      case _ => None
  }

  /** The tokens of a value are read back as that value, whatever follows them. */
  lemma {:induction false} ReadsItsTokens(j: Json, tail: seq<Token>)
    ensures ReadValue(Tokens(j) + tail) == Some((j, tail))
    decreases j, 1
  {
    var ts := Tokens(j) + tail;
    match j {
      case Arr(elems) =>
        ElemsReadBack(elems, tail);
        assert ts[1..] == ElemTokens(elems) + ([Close(false)] + tail);
      case Obj(members) =>
        MembersReadBack(members, tail);
        assert ts[1..] == MemberTokens(members) + ([Close(true)] + tail);
      case _ =>
        assert ts[1..] == tail;
    }
  }

  lemma {:induction false} TokensStart(j: Json, tail: seq<Token>)
    ensures Tokens(j) != [] && (Tokens(j) + tail)[0] == Tokens(j)[0] && !Tokens(j)[0].Close?
  {
  }

  lemma {:induction false} ElemsReadBack(elems: seq<Json>, tail: seq<Token>)
    ensures ReadElems(ElemTokens(elems) + ([Close(false)] + tail)) == Some((elems, tail))
    decreases elems, 0
  {
    var after := [Close(false)] + tail;
    if elems == [] {
      assert ElemTokens(elems) + after == after && after[1..] == tail;
    } else {
      var rest := ElemTokens(elems[1..]) + after;
      Regroup(Tokens(elems[0]), ElemTokens(elems[1..]), after);
      TokensStart(elems[0], rest);
      ReadsItsTokens(elems[0], rest);
      ElemsReadBack(elems[1..], tail);
      assert [elems[0]] + elems[1..] == elems;
    }
  }

  lemma {:induction false} MembersReadBack(members: seq<Member>, tail: seq<Token>)
    ensures ReadMembers(MemberTokens(members) + ([Close(true)] + tail)) == Some((members, tail))
    decreases members, 0
  {
    var after := [Close(true)] + tail;
    if members == [] {
      assert MemberTokens(members) + after == after && after[1..] == tail;
    } else {
      var m := members[0];
      var rest := MemberTokens(members[1..]) + after;
      ReadsItsTokens(m.value, rest);
      MembersReadBack(members[1..], tail);
      MemberStart(members, after);
      MemberIsRead(MemberTokens(members) + after, m.key, m.value, rest, members[1..], tail);
      assert [m] + members[1..] == members;
    }
  }

  lemma {:induction false} MemberStart(members: seq<Member>, after: seq<Token>)
    requires members != []
    ensures var ts := MemberTokens(members) + after;
            ts != [] && ts[0] == TStr(members[0].key)
              && ts[1..] == Tokens(members[0].value) + (MemberTokens(members[1..]) + after)
  {
    Regroup([TStr(members[0].key)], Tokens(members[0].value) + MemberTokens(members[1..]), after);
    Regroup(Tokens(members[0].value), MemberTokens(members[1..]), after);
  }

  lemma {:induction false} MemberIsRead(ts: seq<Token>, key: string, value: Json, rest: seq<Token>,
    others: seq<Member>, tail: seq<Token>)
    requires ts != [] && ts[0] == TStr(key) && ReadValue(ts[1..]) == Some((value, rest))
    requires ReadMembers(rest) == Some((others, tail))
    ensures ReadMembers(ts) == Some(([Member(key, value)] + others, tail))
  {
  }

  /** The elements from an opened array on: the next one, then the others. */
  lemma {:induction false} ElemsStep(ts: seq<Token>)
    requires ts != [] && !ts[0].Close?
    ensures var v, es := ReadValue(ts), ReadElems(ts);
            && (es.Some? <==> v.Some? && ReadElems(v.value.1).Some?)
            && (es.Some? ==> es.value.0 != [] && es.value.0[0] == v.value.0
                             && (es.value.0[1..], es.value.1) == ReadElems(v.value.1).value)
  {
  }

  lemma {:induction false} MembersStep(ts: seq<Token>)
    requires ts != [] && ts[0].TStr?
    ensures var v, ms := ReadValue(ts[1..]), ReadMembers(ts);
            && (ms.Some? <==> v.Some? && ReadMembers(v.value.1).Some?)
            && (ms.Some? ==> ms.value.0 != [] && ms.value.0[0] == Member(ts[0].s, v.value.0)
                             && (ms.value.0[1..], ms.value.1) == ReadMembers(v.value.1).value)
  {
  }

  // The streaming decoder.

  /** The rest of a run of `decode` gives this outcome, once the tokens up to `tail` are consumed. */
  ghost predicate Delivers(want: Out, tail: seq<Token>, value: Value, first: Option<Error>, err: Option<Error>,
    rest: seq<Token>) {
    && value == want.value && first == want.first && err == want.err
    && (err.None? ==> rest == tail)
  }

  class Decoder {
    var rest: seq<Token>
    var firstErr: Option<Error>

    constructor (tokens: seq<Token>)
      ensures rest == tokens && firstErr == None
    {
      rest, firstErr := tokens, None;
    }

    method NextToken() returns (t: Option<Token>)
      modifies this`rest
      ensures if old(rest) == [] then t == None && rest == [] else t == Some(old(rest)[0]) && rest == old(rest)[1..]
    {
      if rest == [] { return None; }
      t := Some(rest[0]);
      rest := rest[1..];
    }

    predicate More()
      reads this
    {
      rest != [] && !rest[0].Close?
    }

    /** Keeps a type or unknown-field error, if it is the first, and goes on; any other error is handed back. */
    method RememberError(o: Outcome, path: string) returns (err: Option<Error>)
      modifies this`firstErr
      ensures firstErr == if IsRemembered(o) then Remember(old(firstErr), ErrorOf(o, path)) else old(firstErr)
      ensures err == if o.Fine? || IsRemembered(o) then None else Some(ErrorOf(o, path))
    {
      if o.Fine? { return None; }
      var e: Error;
      match o {
        case WrongType(field) =>
          e := TypeMismatch(if field == "" then path else if path != "" then path + "." + field else field);
        case Unknown(key) => e := UnknownField(key);
        case _ => return Some(Broken);
      }
      if firstErr.None? { firstErr := Some(e); }
      return None;
    }

    /** The standard decoder: consumes one complete value, or fails. */
    method DecodeWhole() returns (j: Option<Json>)
      modifies this`rest
      ensures match ReadValue(old(rest))
              case None => j.None? && rest == old(rest)
              case Some((read, tail)) => j == Some(read) && rest == tail
    {
      var r := ReadValue(rest);
      if r.None? { return None; }
      j := Some(r.value.0);
      rest := r.value.1;
    }

    /** Skips the remaining children of a wrongly typed array or object, and its closing token. */
    method DiscardOpened(curly: bool) returns (err: Option<Error>)
      modifies this`rest
      ensures if curly then
                match ReadMembers(old(rest)) {
                  case None => err.Some?
                  case Some((_, tail)) => err.None? && rest == tail
                }
              else
                match ReadElems(old(rest)) { case None => err.Some? case Some((_, tail)) => err.None? && rest == tail }
    {
      ghost var start := rest;
      while More()
        invariant curly ==> (ReadMembers(start).Some? <==> ReadMembers(rest).Some?)
        invariant curly && ReadMembers(start).Some? ==> ReadMembers(start).value.1 == ReadMembers(rest).value.1
        invariant !curly ==> (ReadElems(start).Some? <==> ReadElems(rest).Some?)
        invariant !curly && ReadElems(start).Some? ==> ReadElems(start).value.1 == ReadElems(rest).value.1
        decreases |rest|
      {
        if curly {
          var key := NextToken();
          if !key.value.TStr? { return Some(Unexpected); }
        }
        var skipped := DecodeWhole();
        if skipped.None? { return Some(Unexpected); }
      }
      err := CloseWith(curly);
    }

    method CloseWith(curly: bool) returns (err: Option<Error>)
      modifies this`rest
      ensures if old(rest) != [] && old(rest)[0] == Close(curly) then err.None? && rest == old(rest)[1..] else err.Some?
    {
      var t := NextToken();
      if t == Some(Close(curly)) { return None; }
      return Some(Unexpected);
    }

    method Value(value: Value, schema: Schema, path: string) returns (value': Value, err: Option<Error>)
      requires Shaped(value, schema) && Proper(schema)
      modifies this
      ensures Shaped(value', schema)
      ensures match ReadValue(old(rest))
              case None => err.Some?
              case Some((j, tail)) =>
                Delivers(Decode(value, schema, j, path, old(firstErr)), tail, value', firstErr, err, rest)
      decreases |rest|, 2
    {
      if schema.Plain? {
        value', err := PlainValue(value, schema, path);
        return;
      }
      var token := NextToken();
      if token.None? || token.value.Close? {
        return value, Some(Unexpected);
      }
      if token.value.TNull? {
        return Nulled(value, schema), None;
      }
      value', err := Opened(value, schema, path, token.value);
    }

    method PlainValue(value: Value, schema: Schema, path: string) returns (value': Value, err: Option<Error>)
      requires schema.Plain? && Shaped(value, schema)
      modifies this
      ensures Shaped(value', schema)
      ensures match ReadValue(old(rest))
              case None => err.Some?
              case Some((j, tail)) =>
                Delivers(Decode(value, schema, j, path, old(firstErr)), tail, value', firstErr, err, rest)
    {
      value', err := value, None;
      var j := DecodeWhole();
      if j.None? { return value, Some(Unexpected); }
      var outcome := schema.judge(j.value);
      err := RememberError(outcome, path);
      if outcome.Fine? { value' := PlainV(j); }
    }

    /** The value whose first token, neither null nor a closing one, has been read. */
    method Opened(value: Value, schema: Schema, path: string, token: Token) returns (value': Value, err: Option<Error>)
      requires Shaped(value, schema) && Proper(schema) && !schema.Plain? && !token.Close? && !token.TNull?
      modifies this
      ensures Shaped(value', schema)
      ensures match ReadValue([token] + old(rest))
              case None => err.Some?
              case Some((j, tail)) =>
                Delivers(Decode(value, schema, j, path, old(firstErr)), tail, value', firstErr, err, rest)
      decreases |rest|, 4, schema
    {
      assert ([token] + rest)[1..] == rest;
      if schema.Pointer? {
        var inner := if value.target.Some? then value.target.value else Zero(schema.target);
        var inner', err' := Opened(inner, schema.target, path, token);
        return PointerV(Some(inner')), err';
      }
      if token != Open(!schema.Slice?) {
        var _ := RememberError(WrongType(""), path);
        if token.Open? {
          err := DiscardOpened(token.curly);
        } else {
          err := None;
        }
        return value, err;
      }
      if schema.Struct? {
        value', err := Members(value, schema.fields, path);
      } else if schema.Slice? {
        value', err := Elems(value, schema.limit, schema.elem, path);
      } else {
        value', err := Entries(value, schema.limit, schema.elem, path);
      }
    }

    method Members(value: Value, fields: seq<Field>, path: string) returns (value': Value, err: Option<Error>)
      requires Shaped(value, Struct(fields)) && Proper(Struct(fields))
      modifies this
      ensures Shaped(value', Struct(fields))
      ensures match ReadMembers(old(rest))
              case None => err.Some?
              case Some((ms, tail)) =>
                Delivers(DecodeMembers(value, fields, ms, path, old(firstErr)), tail, value', firstErr, err, rest)
      decreases |rest|, 3
    {
      value' := value;
      ghost var all := ReadMembers(rest);
      ghost var first0 := firstErr;
      while More()
        invariant Shaped(value', Struct(fields)) && |rest| <= |old(rest)|
        invariant all.Some? <==> ReadMembers(rest).Some?
        invariant all.Some? ==>
          var r := ReadMembers(rest).value;
          r.1 == all.value.1 &&
          DecodeMembers(value, fields, all.value.0, path, first0) == DecodeMembers(value', fields, r.0, path, firstErr)
        decreases |rest|
      {
        ghost var ts := rest;
        var key := NextToken();
        if !key.value.TStr? { return value', Some(Unexpected); }
        MembersStep(ts);
        var i := Lookup(fields, key.value.s);
        if i.None? {
          var _ := RememberError(Unknown(key.value.s), "");
          var skipped := DecodeWhole();
          if skipped.None? { return value', Some(Unexpected); }
          continue;
        }
        var field := fields[i.value];
        var member, err' := Value(value'.fields[i.value], field.schema, Join(path, field.name));
        value' := StructV(value'.fields[i.value := member]);
        if err'.Some? { return value', err'; }
      }
      err := CloseWith(true);
    }

    method Elems(value: Value, limit: nat, elem: Schema, path: string) returns (value': Value, err: Option<Error>)
      requires Shaped(value, Slice(limit, elem)) && Proper(elem)
      modifies this
      ensures Shaped(value', Slice(limit, elem))
      ensures match ReadElems(old(rest))
              case None => err.Some?
              case Some((es, tail)) =>
                Delivers(DecodeElems(value, limit, elem, es, 0, path, old(firstErr)), tail, value', firstErr, err, rest)
      decreases |rest|, 3
    {
      value' := value;
      var n := 0;
      ghost var all := ReadElems(rest);
      ghost var first0 := firstErr;
      while More()
        invariant Shaped(value', Slice(limit, elem)) && n <= |value'.elems| && |rest| <= |old(rest)|
        invariant all.Some? <==> ReadElems(rest).Some?
        invariant all.Some? ==>
          var r := ReadElems(rest).value;
          r.1 == all.value.1 &&
          DecodeElems(value, limit, elem, all.value.0, 0, path, first0) ==
            DecodeElems(value', limit, elem, r.0, n, path, firstErr)
        decreases |rest|
      {
        if n >= limit { return value', Some(Limit(path, limit)); }
        ElemsStep(rest);
        ExposeShaped(value', limit, elem, n);
        value' := Expose(value', elem, n);
        var member, err' := Value(value'.elems[n], elem, path);
        value' := value'.(elems := value'.elems[n := member]);
        if err'.Some? { return value', err'; }
        n := n + 1;
      }
      err := CloseWith(false);
      CutShaped(value', limit, elem, n);
      if err.None? { value' := Cut(value', n); }
    }

    method Entries(value: Value, limit: nat, elem: Schema, path: string) returns (value': Value, err: Option<Error>)
      requires Shaped(value, Map(limit, elem)) && Proper(elem)
      modifies this
      ensures Shaped(value', Map(limit, elem))
      ensures match ReadMembers(old(rest))
              case None => err.Some?
              case Some((ms, tail)) =>
                Delivers(DecodeEntries(value, limit, elem, ms, path, old(firstErr)), tail, value', firstErr, err, rest)
      decreases |rest|, 3
    {
      value' := value;
      ghost var all := ReadMembers(rest);
      ghost var first0 := firstErr;
      while More()
        invariant Shaped(value', Map(limit, elem)) && |rest| <= |old(rest)|
        invariant all.Some? <==> ReadMembers(rest).Some?
        invariant all.Some? ==>
          var r := ReadMembers(rest).value;
          r.1 == all.value.1 &&
          DecodeEntries(value, limit, elem, all.value.0, path, first0) ==
            DecodeEntries(value', limit, elem, r.0, path, firstErr)
        decreases |rest|
      {
        ghost var ts := rest;
        var key := NextToken();
        if !key.value.TStr? { return value', Some(Unexpected); }
        MembersStep(ts);
        if key.value.s !in value'.entries && |value'.entries| >= limit { return value', Some(Limit(path, limit)); }
        var member, err' := Value(Zero(elem), elem, path);
        if err'.Some? { return value', err'; }
        value' := MapV(value'.entries[key.value.s := member]);
      }
      err := CloseWith(true);
    }
  }

  // What a decoded value means, said without the decoder.

  /** Equal up to the case of letters. */
  predicate SameLetters(a: string, b: string) {
    && |a| == |b|
    && forall k :: 0 <= k < |a| ==>
         a[k] == b[k]
         || ('A' <= a[k] <= 'Z' && b[k] as int == a[k] as int + 32)
         || ('A' <= b[k] <= 'Z' && a[k] as int == b[k] as int + 32)
  }

  /** The key stands for field i: the first one with that very name, or else the first with that name in other case. */
  predicate Names(fields: seq<Field>, key: string, i: nat) {
    && i < |fields|
    && if exists j :: 0 <= j < |fields| && fields[j].name == key then
         fields[i].name == key && forall j :: 0 <= j < i ==> fields[j].name != key
       else
         SameLetters(fields[i].name, key) && forall j :: 0 <= j < i ==> !SameLetters(fields[j].name, key)
  }

  /** What slice element i is decoded into: whatever the backing array holds there, or a zero value. */
  function Prior(v: Value, elem: Schema, i: nat): Value
    requires v.SliceV?
  {
    if i < |v.elems| then v.elems[i] else if i - |v.elems| < |v.spare| then v.spare[i - |v.elems|] else Zero(elem)
  }

  /** What a slice of length n leaves unused of the backing array. */
  function Beyond(v: Value, n: nat): seq<Value>
    requires v.SliceV?
  {
    var all := v.elems + v.spare;
    if n < |all| then all[n..] else []
  }

  ghost predicate Known(fields: seq<Field>, key: string) {
    exists i :: Names(fields, key, i)
  }

  /** Every member's key stands for a field. */
  ghost predicate KeysKnown(fields: seq<Field>, members: seq<Member>) {
    forall k :: 0 <= k < |members| ==> Known(fields, members[k].key)
  }

  /** v' is v once j has been stored in it, without any error. */
  ghost predicate Represents(v: Value, s: Schema, j: Json, v': Value)
    decreases j, 1, s
  {
    match s
    case Plain(judge) => judge(j).Fine? && v' == PlainV(Some(j))
    case Pointer(target) =>
      if j.Null? then v' == PointerV(None)
      else
        && v'.PointerV? && v'.target.Some? && v.PointerV?
        && Represents(if v.target.Some? then v.target.value else Zero(target), target, j, v'.target.value)
    case Struct(fields) =>
      if j.Null? then v' == v
      else
        && j.Obj? && v.StructV? && v'.StructV? && |v.fields| == |v'.fields| == |fields|
        && KeysKnown(fields, j.members)
        && (forall i {:trigger v'.fields[i]} :: 0 <= i < |fields| ==>
              FieldAfter(v.fields[i], i, fields, j.members, v'.fields[i]))
    case Slice(limit, elem) =>
      if j.Null? then v' == SliceV([], [])
      else
        && j.Arr? && v.SliceV? && v'.SliceV? && |v'.elems| == |j.elems| <= limit
        && (forall i {:trigger v'.elems[i]} :: 0 <= i < |j.elems| ==>
              Represents(Prior(v, elem, i), elem, j.elems[i], v'.elems[i]))
        && v'.spare == if j.elems == [] then [] else Beyond(v, |j.elems|)
    case Map(limit, elem) =>
      if j.Null? then v' == MapV(map[])
      else
        && j.Obj? && v.MapV? && v'.MapV? && EntriesAfter(v.entries, elem, j.members, v'.entries)
        && |v'.entries| <= limit
  }

  /** Field i after the members in their order: each member that names it is stored in it, the others leave it alone. */
  ghost predicate FieldAfter(v: Value, i: nat, fields: seq<Field>, members: seq<Member>, v': Value)
    requires i < |fields|
    decreases members, 0
  {
    if members == [] then v' == v
    else if Names(fields, members[0].key, i) then
      exists mid {:trigger Represents(v, fields[i].schema, members[0].value, mid)} ::
        Represents(v, fields[i].schema, members[0].value, mid) && FieldAfter(mid, i, fields, members[1..], v')
    else FieldAfter(v, i, fields, members[1..], v')
  }

  /** Some value represents j on its own. */
  ghost predicate Representable(elem: Schema, j: Json)
    decreases j, 2, elem
  {
    exists x :: Represents(Zero(elem), elem, j, x)
  }

  predicate HasKey(members: seq<Member>, key: string) {
    exists k :: 0 <= k < |members| && members[k].key == key
  }

  predicate IsLast(members: seq<Member>, k: nat)
    requires k < |members|
  {
    forall l :: k < l < |members| ==> members[l].key != members[k].key
  }

  ghost predicate AllRepresentable(elem: Schema, members: seq<Member>)
    decreases members, 0
  {
    forall k :: 0 <= k < |members| ==> Representable(elem, members[k].value)
  }

  /** Every key holds what its last member says, from a zero value. */
  ghost predicate LastStored(elem: Schema, members: seq<Member>, m': map<string, Value>)
    decreases members, 0
  {
    forall k {:trigger IsLast(members, k)} :: 0 <= k < |members| && IsLast(members, k) ==>
      members[k].key in m' && Represents(Zero(elem), elem, members[k].value, m'[members[k].key])
  }

  predicate OthersKept(m: map<string, Value>, members: seq<Member>, m': map<string, Value>) {
    forall key :: key in m && !HasKey(members, key) ==> key in m' && m'[key] == m[key]
  }

  ghost predicate KeysOf(m: map<string, Value>, members: seq<Member>, m': map<string, Value>) {
    forall key :: key in m' <==> key in m || HasKey(members, key)
  }

  /** The members' keys hold what their last member says; the other keys keep what they hold. */
  ghost predicate EntriesAfter(m: map<string, Value>, elem: Schema, members: seq<Member>, m': map<string, Value>)
    decreases members, 1
  {
    KeysOf(m, members, m') && OthersKept(m, members, m') && AllRepresentable(elem, members)
      && LastStored(elem, members, m')
  }

  /** In particular a plain field holds the last member that names it. */
  lemma {:induction false} PlainFieldHoldsLast(v: Value, i: nat, fields: seq<Field>, members: seq<Member>, v': Value,
    k: nat)
    requires i < |fields| && fields[i].schema.Plain? && FieldAfter(v, i, fields, members, v')
    requires k < |members| && Names(fields, members[k].key, i)
    requires forall l :: k < l < |members| ==> !Names(fields, members[l].key, i)
    ensures v' == PlainV(Some(members[k].value))
    decreases |members|
  {
    var tail := members[1..];
    forall l | k - 1 < l < |tail| ensures !Names(fields, tail[l].key, i) {
      assert tail[l] == members[l + 1];
    }
    if k > 0 {
      assert tail[k - 1] == members[k];
      if Names(fields, members[0].key, i) {
        var mid :| Represents(v, fields[i].schema, members[0].value, mid) && FieldAfter(mid, i, fields, tail, v');
        PlainFieldHoldsLast(mid, i, fields, tail, v', k - 1);
      } else {
        PlainFieldHoldsLast(v, i, fields, tail, v', k - 1);
      }
    } else {
      var mid :| Represents(v, fields[i].schema, members[0].value, mid) && FieldAfter(mid, i, fields, tail, v');
      UnnamedFieldIsKept(mid, i, fields, tail, v');
    }
  }

  /** And a field that no member names keeps what it held. */
  lemma {:induction false} UnnamedFieldIsKept(v: Value, i: nat, fields: seq<Field>, members: seq<Member>, v': Value)
    requires i < |fields| && FieldAfter(v, i, fields, members, v')
    requires forall l :: 0 <= l < |members| ==> !Names(fields, members[l].key, i)
    ensures v' == v
    decreases |members|
  {
    if members != [] {
      forall l | 0 <= l < |members[1..]| ensures !Names(fields, members[1..][l].key, i) {
        assert members[1..][l] == members[l + 1];
      }
      UnnamedFieldIsKept(v, i, fields, members[1..], v');
    }
  }

  lemma {:induction false} LowerIsSameLetters(a: string, b: string)
    ensures Lower(a) == Lower(b) <==> SameLetters(a, b)
  {
    if |a| == |b| {
      forall k | 0 <= k < |a|
        ensures LowerChar(a[k]) == LowerChar(b[k]) <==>
                a[k] == b[k] || ('A' <= a[k] <= 'Z' && b[k] as int == a[k] as int + 32)
                || ('A' <= b[k] <= 'Z' && a[k] as int == b[k] as int + 32)
      {
      }
      assert forall k :: 0 <= k < |a| ==> Lower(a)[k] == LowerChar(a[k]) && Lower(b)[k] == LowerChar(b[k]);
    } else {
      assert |Lower(a)| != |Lower(b)|;
    }
  }

  predicate Matches(f: Field, key: string, fold: bool) {
    if fold then SameLetters(f.name, key) else f.name == key
  }

  lemma {:induction false} FindIsFirst(fields: seq<Field>, key: string, fold: bool, from: nat)
    requires from <= |fields|
    ensures var i := FindField(fields, key, fold, from);
            if i.Some? then
              Matches(fields[i.value], key, fold) && forall j :: from <= j < i.value ==> !Matches(fields[j], key, fold)
            else
              forall j :: from <= j < |fields| ==> !Matches(fields[j], key, fold)
    decreases |fields| - from
  {
    if from < |fields| {
      LowerIsSameLetters(fields[from].name, key);
      FindIsFirst(fields, key, fold, from + 1);
    }
  }

  /** Lookup finds the one field that a key stands for. */
  lemma {:induction false} LookupIsNames(fields: seq<Field>, key: string)
    ensures var i := Lookup(fields, key);
            if i.Some? then Names(fields, key, i.value) && forall l :: Names(fields, key, l) ==> l == i.value
            else forall l :: !Names(fields, key, l)
  {
    FindIsFirst(fields, key, false, 0);
    FindIsFirst(fields, key, true, 0);
    var exact := FindField(fields, key, false, 0);
    assert exact.Some? <==> exists j :: 0 <= j < |fields| && fields[j].name == key by {
      if exact.Some? { assert fields[exact.value].name == key; }
      if j :| 0 <= j < |fields| && fields[j].name == key { assert Matches(fields[j], key, false); }
    }
    forall l: nat | Names(fields, key, l) ensures Lookup(fields, key) == Some(l) {
      NamesIsFirst(fields, key, l, exact.None?);
    }
    if Lookup(fields, key).Some? { FirstIsNames(fields, key, Lookup(fields, key).value, exact.None?); }
  }

  lemma {:induction false} NamesIsFirst(fields: seq<Field>, key: string, l: nat, fold: bool)
    requires Names(fields, key, l)
    requires fold <==> !(exists j :: 0 <= j < |fields| && fields[j].name == key)
    ensures FindField(fields, key, fold, 0) == Some(l)
  {
    FindIsFirst(fields, key, fold, 0);
    var i := FindField(fields, key, fold, 0);
    assert Matches(fields[l], key, fold) && forall j :: 0 <= j < l ==> !Matches(fields[j], key, fold);
  }

  lemma {:induction false} FirstIsNames(fields: seq<Field>, key: string, l: nat, fold: bool)
    requires FindField(fields, key, fold, 0) == Some(l)
    requires fold <==> !(exists j :: 0 <= j < |fields| && fields[j].name == key)
    ensures Names(fields, key, l)
  {
    FindIsFirst(fields, key, fold, 0);
    forall j | 0 <= j < l ensures !Matches(fields[j], key, fold) {}
    if fold {
      assert forall j :: 0 <= j < l ==> !SameLetters(fields[j].name, key) by {
        forall j | 0 <= j < l ensures !SameLetters(fields[j].name, key) { assert !Matches(fields[j], key, true); }
      }
    } else {
      assert fields[l].name == key;
      assert forall j :: 0 <= j < l ==> fields[j].name != key by {
        forall j | 0 <= j < l ensures fields[j].name != key { assert !Matches(fields[j], key, false); }
      }
    }
  }

  // Once an error is remembered, one stays remembered.

  lemma {:induction false} StaysRemembered(v: Value, s: Schema, j: Json, path: string, first: Option<Error>)
    requires Shaped(v, s) && first.Some?
    ensures Decode(v, s, j, path, first).first.Some?
    decreases j, 1, s
  {
    if !s.Plain? && !j.Null? {
      if s.Pointer? {
        StaysRemembered(if v.target.Some? then v.target.value else Zero(s.target), s.target, j, path, first);
      } else if Fits(s, j) {
        if s.Struct? {
          MembersStayRemembered(v, s.fields, j.members, path, first);
        } else if s.Slice? {
          ElemsStayRemembered(v, s.limit, s.elem, j.elems, 0, path, first);
        } else {
          EntriesStayRemembered(v, s.limit, s.elem, j.members, path, first);
        }
      }
    }
  }

  lemma {:induction false} MembersStayRemembered(v: Value, fields: seq<Field>, members: seq<Member>, path: string,
    first: Option<Error>)
    requires Shaped(v, Struct(fields)) && first.Some?
    ensures DecodeMembers(v, fields, members, path, first).first.Some?
    decreases members, 0
  {
    if members != [] {
      var i := Lookup(fields, members[0].key);
      if i.None? {
        MembersStayRemembered(v, fields, members[1..], path, first);
      } else {
        var field := fields[i.value];
        var o := Decode(v.fields[i.value], field.schema, members[0].value, Join(path, field.name), first);
        StaysRemembered(v.fields[i.value], field.schema, members[0].value, Join(path, field.name), first);
        if o.err.None? {
          MembersStayRemembered(StructV(v.fields[i.value := o.value]), fields, members[1..], path, o.first);
        }
      }
    }
  }

  lemma {:induction false} ElemsStayRemembered(v: Value, limit: nat, elem: Schema, elems: seq<Json>, n: nat,
    path: string, first: Option<Error>)
    requires Shaped(v, Slice(limit, elem)) && n <= |v.elems| && first.Some?
    ensures DecodeElems(v, limit, elem, elems, n, path, first).first.Some?
    decreases elems, 0
  {
    if elems != [] && n < limit {
      ExposeShaped(v, limit, elem, n);
      var v1 := Expose(v, elem, n);
      var o := Decode(v1.elems[n], elem, elems[0], path, first);
      StaysRemembered(v1.elems[n], elem, elems[0], path, first);
      if o.err.None? {
        ElemsStayRemembered(v1.(elems := v1.elems[n := o.value]), limit, elem, elems[1..], n + 1, path, o.first);
      }
    }
  }

  lemma {:induction false} EntriesStayRemembered(v: Value, limit: nat, elem: Schema, members: seq<Member>,
    path: string, first: Option<Error>)
    requires Shaped(v, Map(limit, elem)) && first.Some?
    ensures DecodeEntries(v, limit, elem, members, path, first).first.Some?
    decreases members, 0
  {
    if members != [] && (members[0].key in v.entries || |v.entries| < limit) {
      var o := Decode(Zero(elem), elem, members[0].value, path, first);
      StaysRemembered(Zero(elem), elem, members[0].value, path, first);
      if o.err.None? {
        EntriesStayRemembered(MapV(v.entries[members[0].key := o.value]), limit, elem, members[1..], path, o.first);
      }
    }
  }

  // Decoding without an error stores exactly what the JSON says.

  ghost predicate Clean(o: Out, v': Value) {
    o == Out(v', None, None)
  }

  /** Main result: the decoder ends without any error in v' exactly when v' represents the JSON value stored in v. */
  lemma {:induction false} DecodeRepresents(v: Value, s: Schema, j: Json, path: string, v': Value)
    requires Shaped(v, s)
    ensures Clean(Decode(v, s, j, path, None), v') <==> Represents(v, s, j, v')
    decreases j, 1, s
  {
    if s.Plain? || j.Null? {
    } else if s.Pointer? {
      if v'.PointerV? && v'.target.Some? {
        DecodeRepresents(if v.target.Some? then v.target.value else Zero(s.target), s.target, j, path, v'.target.value);
      }
    } else if Fits(s, j) {
      if s.Struct? {
        MembersRepresent(v, s.fields, j.members, path, v');
        StructMeans(v, s.fields, j, v');
      } else if s.Slice? {
        ElemsRepresent(v, s.limit, s.elem, j.elems, 0, path, v');
        SliceMeans(v, s.limit, s.elem, j, v');
      } else {
        EntriesRepresent(v, s.limit, s.elem, j.members, path, v');
      }
    }
  }

  lemma {:induction false} StructMeans(v: Value, fields: seq<Field>, j: Json, v': Value)
    requires v.StructV? && |v.fields| == |fields| && j.Obj?
    ensures Represents(v, Struct(fields), j, v') <==> MembersHold(v, fields, j.members, v')
  {
  }

  lemma {:induction false} SliceMeans(v: Value, limit: nat, elem: Schema, j: Json, v': Value)
    requires v.SliceV? && j.Arr?
    ensures Represents(v, Slice(limit, elem), j, v') <==> ElemsHold(v, limit, elem, j.elems, 0, v')
  {
  }

  ghost predicate MembersHold(v: Value, fields: seq<Field>, members: seq<Member>, v': Value)
    requires v.StructV? && |v.fields| == |fields|
  {
    && v'.StructV? && |v'.fields| == |fields|
    && KeysKnown(fields, members)
    && (forall i {:trigger v'.fields[i]} :: 0 <= i < |fields| ==>
          FieldAfter(v.fields[i], i, fields, members, v'.fields[i]))
  }

  lemma {:induction false} MembersRepresent(v: Value, fields: seq<Field>, members: seq<Member>, path: string, v': Value)
    requires Shaped(v, Struct(fields))
    ensures Clean(DecodeMembers(v, fields, members, path, None), v') <==> MembersHold(v, fields, members, v')
    decreases members, 0
  {
    if members == [] {
      if MembersHold(v, fields, members, v') { assert v'.fields == v.fields; }
    } else {
      var key := members[0].key;
      LookupIsNames(fields, key);
      if Lookup(fields, key).None? {
        MembersStayRemembered(v, fields, members[1..], path, Remember(None, UnknownField(key)));
      } else {
        var i := Lookup(fields, key).value;
        var sub := Join(path, fields[i].name);
        var o := Decode(v.fields[i], fields[i].schema, members[0].value, sub, None);
        forall x ensures Clean(o, x) <==> Represents(v.fields[i], fields[i].schema, members[0].value, x) {
          DecodeRepresents(v.fields[i], fields[i].schema, members[0].value, sub, x);
        }
        if Clean(o, o.value) {
          var v1 := StructV(v.fields[i := o.value]);
          MembersRepresent(v1, fields, members[1..], path, v');
          MembersShift(v, fields, members, i, o.value, v');
        } else {
          if o.err.None? {
            MembersStayRemembered(StructV(v.fields[i := o.value]), fields, members[1..], path, o.first);
          }
          if MembersHold(v, fields, members, v') { FirstMemberRepresented(v, fields, members, i, v'); }
        }
      }
    }
  }

  lemma {:induction false} FirstMemberRepresented(v: Value, fields: seq<Field>, members: seq<Member>, i: nat, v': Value)
    requires v.StructV? && |v.fields| == |fields| && MembersHold(v, fields, members, v')
    requires members != [] && Names(fields, members[0].key, i)
    ensures exists x :: Represents(v.fields[i], fields[i].schema, members[0].value, x)
  {
    assert FieldAfter(v.fields[i], i, fields, members, v'.fields[i]);
  }

  lemma {:induction false} FieldShift(v: Value, fields: seq<Field>, members: seq<Member>, i: nat, x: Value, l: nat,
    after: Value)
    requires v.StructV? && |v.fields| == |fields| && members != [] && i < |fields| && l < |fields|
    requires Names(fields, members[0].key, i) && forall k :: Names(fields, members[0].key, k) ==> k == i
    requires forall y :: Represents(v.fields[i], fields[i].schema, members[0].value, y) <==> y == x
    ensures FieldAfter(v.fields[l], l, fields, members, after) <==>
            FieldAfter(if l == i then x else v.fields[l], l, fields, members[1..], after)
  {
    if l == i { assert Represents(v.fields[i], fields[i].schema, members[0].value, x); }
  }

  lemma {:induction false} KnownShift(fields: seq<Field>, members: seq<Member>, i: nat)
    requires members != [] && Names(fields, members[0].key, i)
    ensures KeysKnown(fields, members) <==> KeysKnown(fields, members[1..])
  {
    assert forall k :: 1 <= k < |members| ==> members[k] == members[1..][k - 1];
    assert forall k :: 0 <= k < |members[1..]| ==> members[1..][k] == members[k + 1];
  }

  lemma {:induction false} MembersShift(v: Value, fields: seq<Field>, members: seq<Member>, i: nat, x: Value, v': Value)
    requires v.StructV? && |v.fields| == |fields| && members != [] && i < |fields|
    requires Names(fields, members[0].key, i) && forall l :: Names(fields, members[0].key, l) ==> l == i
    requires forall y :: Represents(v.fields[i], fields[i].schema, members[0].value, y) <==> y == x
    ensures MembersHold(v, fields, members, v') <==> MembersHold(StructV(v.fields[i := x]), fields, members[1..], v')
  {
    KnownShift(fields, members, i);
    if v'.StructV? && |v'.fields| == |fields| {
      forall l | 0 <= l < |fields|
        ensures FieldAfter(v.fields[l], l, fields, members, v'.fields[l]) <==>
                FieldAfter(v.fields[i := x][l], l, fields, members[1..], v'.fields[l])
      {
        FieldShift(v, fields, members, i, x, l, v'.fields[l]);
      }
    }
  }

  ghost predicate ElemsHold(v: Value, limit: nat, elem: Schema, elems: seq<Json>, n: nat, v': Value)
    requires v.SliceV? && n <= |v.elems|
  {
    && v'.SliceV? && |v'.elems| == n + |elems| <= limit && v'.elems[..n] == v.elems[..n]
    && RestHolds(v, elem, elems, n, v'.elems)
    && v'.spare == if n + |elems| == 0 then [] else Beyond(v, n + |elems|)
  }

  lemma {:induction false} ElemsRepresent(v: Value, limit: nat, elem: Schema, elems: seq<Json>, n: nat, path: string,
    v': Value)
    requires Shaped(v, Slice(limit, elem)) && n <= |v.elems|
    ensures Clean(DecodeElems(v, limit, elem, elems, n, path, None), v') <==> ElemsHold(v, limit, elem, elems, n, v')
    decreases elems, 0
  {
    if elems == [] {
      NoElems(v, limit, elem, n, v');
    } else if n < limit {
      ExposeShaped(v, limit, elem, n);
      var v1 := Expose(v, elem, n);
      var o := Decode(v1.elems[n], elem, elems[0], path, None);
      assert v1.elems[n] == Prior(v, elem, n);
      forall x ensures Clean(o, x) <==> Represents(Prior(v, elem, n), elem, elems[0], x) {
        DecodeRepresents(v1.elems[n], elem, elems[0], path, x);
      }
      var v2 := v1.(elems := v1.elems[n := o.value]);
      if Clean(o, o.value) {
        ElemsRepresent(v2, limit, elem, elems[1..], n + 1, path, v');
        CleanElem(v, limit, elem, elems, n, path, o.value, v');
      } else {
        DirtyElem(v, limit, elem, elems, n, path, v');
      }
    }
  }

  lemma {:induction false} CleanElem(v: Value, limit: nat, elem: Schema, elems: seq<Json>, n: nat, path: string,
    x: Value, v': Value)
    requires Shaped(v, Slice(limit, elem)) && n <= |v.elems| && n < limit && elems != []
    requires n < |Expose(v, elem, n).elems| && Shaped(Expose(v, elem, n).elems[n], elem)
    requires Clean(Decode(Expose(v, elem, n).elems[n], elem, elems[0], path, None), x)
    requires forall y :: Represents(Prior(v, elem, n), elem, elems[0], y) <==> y == x
    requires var v1 := Expose(v, elem, n); var v2 := v1.(elems := v1.elems[n := x]);
             Shaped(v2, Slice(limit, elem))
             && (Clean(DecodeElems(v2, limit, elem, elems[1..], n + 1, path, None), v') <==>
                 ElemsHold(v2, limit, elem, elems[1..], n + 1, v'))
    ensures Clean(DecodeElems(v, limit, elem, elems, n, path, None), v') <==> ElemsHold(v, limit, elem, elems, n, v')
  {
    var v1 := Expose(v, elem, n);
    ExposeSets(v, elem, n, x, n + |elems|);
    ElemsShift(v, v1.(elems := v1.elems[n := x]), limit, elem, elems, n, x, v');
  }

  lemma {:induction false} DirtyElem(v: Value, limit: nat, elem: Schema, elems: seq<Json>, n: nat, path: string,
    v': Value)
    requires Shaped(v, Slice(limit, elem)) && n <= |v.elems| && n < limit && elems != []
    requires n < |Expose(v, elem, n).elems| && Shaped(Expose(v, elem, n).elems[n], elem)
    requires var o := Decode(Expose(v, elem, n).elems[n], elem, elems[0], path, None); !Clean(o, o.value)
    requires forall y :: !Represents(Prior(v, elem, n), elem, elems[0], y)
    ensures !Clean(DecodeElems(v, limit, elem, elems, n, path, None), v') && !ElemsHold(v, limit, elem, elems, n, v')
  {
    ExposeShaped(v, limit, elem, n);
    var v1 := Expose(v, elem, n);
    var o := Decode(v1.elems[n], elem, elems[0], path, None);
    if o.err.None? {
      ElemsStayRemembered(v1.(elems := v1.elems[n := o.value]), limit, elem, elems[1..], n + 1, path, o.first);
    }
    if ElemsHold(v, limit, elem, elems, n, v') { FirstElemRepresented(v, limit, elem, elems, n, v'); }
  }

  lemma {:induction false} FirstElemRepresented(v: Value, limit: nat, elem: Schema, elems: seq<Json>, n: nat, v': Value)
    requires v.SliceV? && n <= |v.elems| && elems != [] && ElemsHold(v, limit, elem, elems, n, v')
    ensures Represents(Prior(v, elem, n), elem, elems[0], v'.elems[n])
  {
  }

  lemma {:induction false} NoElems(v: Value, limit: nat, elem: Schema, n: nat, v': Value)
    requires Shaped(v, Slice(limit, elem)) && n <= |v.elems|
    ensures v' == Cut(v, n) <==> ElemsHold(v, limit, elem, [], n, v')
  {
    if n > 0 {
      assert Beyond(v, n) == v.elems[n..] + v.spare;
      if v'.SliceV? && |v'.elems| == n { assert v'.elems[..n] == v'.elems; }
    }
  }

  /** v2 is v with element n exposed and set to x. */
  ghost predicate SetAt(v: Value, v2: Value, elem: Schema, n: nat, x: Value, m: nat) {
    && v.SliceV? && v2.SliceV? && n <= |v.elems| && n < |v2.elems|
    && v2.elems[..n] == v.elems[..n] && v2.elems[n] == x && Beyond(v2, m) == Beyond(v, m)
    && forall i :: i > n ==> Prior(v2, elem, i) == Prior(v, elem, i)
  }

  lemma {:induction false} ExposeSets(v: Value, elem: Schema, n: nat, x: Value, m: nat)
    requires v.SliceV? && n <= |v.elems| && n < m
    ensures var v1 := Expose(v, elem, n);
            n < |v1.elems| && SetAt(v, v1.(elems := v1.elems[n := x]), elem, n, x, m)
  {
    var v1 := Expose(v, elem, n);
    var v2 := v1.(elems := v1.elems[n := x]);
    assert v2.elems[..n] == v.elems[..n];
    BeyondExposed(v, elem, n, x, m);
    forall i: int | i > n ensures Prior(v2, elem, i) == Prior(v, elem, i) { PriorExposed(v, elem, n, x, i); }
  }

  lemma {:induction false} ElemsShift(v: Value, v2: Value, limit: nat, elem: Schema, elems: seq<Json>, n: nat, x: Value,
    v': Value)
    requires elems != [] && SetAt(v, v2, elem, n, x, n + |elems|)
    requires forall y :: Represents(Prior(v, elem, n), elem, elems[0], y) <==> y == x
    ensures ElemsHold(v, limit, elem, elems, n, v') <==> ElemsHold(v2, limit, elem, elems[1..], n + 1, v')
  {
    var tail := elems[1..];
    assert n + 1 + |tail| == n + |elems|;
    if v'.SliceV? && |v'.elems| == n + |elems| {
      assert ElemsHold(v, limit, elem, elems, n, v') <==>
             n + |elems| <= limit && v'.elems[..n] == v.elems[..n] && RestHolds(v, elem, elems, n, v'.elems)
             && v'.spare == Beyond(v, n + |elems|);
      PrefixShift(v.elems, v2.elems, n, x, v'.elems);
      RestShift(v, v2, elem, elems, n, v'.elems);
    }
  }

  lemma {:induction false} PriorExposed(v: Value, elem: Schema, n: nat, x: Value, i: nat)
    requires v.SliceV? && n <= |v.elems| && n < i
    ensures var v1 := Expose(v, elem, n);
            n < |v1.elems| && Prior(v1.(elems := v1.elems[n := x]), elem, i) == Prior(v, elem, i)
  {
  }

  lemma {:induction false} PrefixShift(before: seq<Value>, after: seq<Value>, n: nat, x: Value, end: seq<Value>)
    requires n <= |before| && n < |after| && n < |end| && after[..n] == before[..n] && after[n] == x
    ensures end[..n + 1] == after[..n + 1] <==> end[..n] == before[..n] && end[n] == x
  {
    assert end[..n + 1] == end[..n] + [end[n]] && after[..n + 1] == after[..n] + [after[n]];
  }

  ghost predicate RestHolds(v: Value, elem: Schema, elems: seq<Json>, n: nat, end: seq<Value>)
    requires v.SliceV? && |end| == n + |elems|
  {
    forall i {:trigger end[i]} :: n <= i < n + |elems| ==> Represents(Prior(v, elem, i), elem, elems[i - n], end[i])
  }

  lemma {:induction false} RestShift(v: Value, v2: Value, elem: Schema, elems: seq<Json>, n: nat, end: seq<Value>)
    requires v.SliceV? && v2.SliceV? && elems != [] && |end| == n + |elems|
    requires forall i :: i > n ==> Prior(v2, elem, i) == Prior(v, elem, i)
    ensures RestHolds(v, elem, elems, n, end) <==>
            Represents(Prior(v, elem, n), elem, elems[0], end[n]) && RestHolds(v2, elem, elems[1..], n + 1, end)
  {
    forall i | n < i < n + |elems|
      ensures Represents(Prior(v2, elem, i), elem, elems[1..][i - (n + 1)], end[i]) <==>
              Represents(Prior(v, elem, i), elem, elems[i - n], end[i])
    {
      assert elems[1..][i - (n + 1)] == elems[i - n];
    }
  }

  lemma {:induction false} BeyondExposed(v: Value, elem: Schema, n: nat, x: Value, m: nat)
    requires v.SliceV? && n <= |v.elems| && n < m
    ensures var v1 := Expose(v, elem, n); n < |v1.elems| && Beyond(v1.(elems := v1.elems[n := x]), m) == Beyond(v, m)
  {
    var v1 := Expose(v, elem, n);
    var v2 := v1.(elems := v1.elems[n := x]);
    var all, all2 := v.elems + v.spare, v2.elems + v2.spare;
    assert forall k :: n < k < |all| ==> k < |all2| && all2[k] == all[k];
    assert m < |all| ==> all2[m..] == all[m..];
  }

  ghost predicate EntriesHold(v: Value, limit: nat, elem: Schema, members: seq<Member>, v': Value)
    requires v.MapV?
  {
    v'.MapV? && EntriesAfter(v.entries, elem, members, v'.entries) && |v'.entries| <= limit
  }

  lemma {:induction false} EntriesRepresent(v: Value, limit: nat, elem: Schema, members: seq<Member>, path: string,
    v': Value)
    requires Shaped(v, Map(limit, elem))
    ensures Clean(DecodeEntries(v, limit, elem, members, path, None), v') <==> EntriesHold(v, limit, elem, members, v')
    decreases members, 0
  {
    if members == [] {
      if v'.MapV? { NoEntries(v.entries, elem, v'.entries); }
    } else {
      var key := members[0].key;
      var o := Decode(Zero(elem), elem, members[0].value, path, None);
      forall x ensures Clean(o, x) <==> Represents(Zero(elem), elem, members[0].value, x) {
        DecodeRepresents(Zero(elem), elem, members[0].value, path, x);
      }
      if key !in v.entries && |v.entries| >= limit {
        if EntriesHold(v, limit, elem, members, v') { NewKeyCounts(v.entries, elem, members, v'.entries); }
      } else if Clean(o, o.value) {
        EntriesRepresent(MapV(v.entries[key := o.value]), limit, elem, members[1..], path, v');
        if v'.MapV? { EntriesShift(v.entries, elem, members, o.value, v'.entries); }
      } else {
        if o.err.None? {
          EntriesStayRemembered(MapV(v.entries[key := o.value]), limit, elem, members[1..], path, o.first);
        }
        if EntriesHold(v, limit, elem, members, v') { FirstEntryRepresented(v.entries, elem, members, v'.entries); }
      }
    }
  }

  lemma {:induction false} NoEntries(m: map<string, Value>, elem: Schema, m': map<string, Value>)
    ensures EntriesAfter(m, elem, [], m') <==> m' == m
  {
    assert forall key :: !HasKey([], key);
    if EntriesAfter(m, elem, [], m') { assert m'.Keys == m.Keys; }
  }

  lemma {:induction false} FirstEntryRepresented(m: map<string, Value>, elem: Schema, members: seq<Member>,
    m': map<string, Value>)
    requires members != [] && EntriesAfter(m, elem, members, m')
    ensures exists x :: Represents(Zero(elem), elem, members[0].value, x)
  {
    assert Representable(elem, members[0].value);
  }

  lemma {:induction false} NewKeyCounts(m: map<string, Value>, elem: Schema, members: seq<Member>,
    m': map<string, Value>)
    requires members != [] && members[0].key !in m && EntriesAfter(m, elem, members, m')
    ensures |m'| > |m|
  {
    assert HasKey(members, members[0].key);
    MoreKeys(m, m', members[0].key);
  }

  lemma {:induction false} MoreKeys(m: map<string, Value>, m': map<string, Value>, key: string)
    requires m.Keys <= m'.Keys && key in m' && key !in m
    ensures |m'| > |m|
  {
    SubsetSize(m.Keys + {key}, m'.Keys);
    assert |m.Keys + {key}| == |m.Keys| + 1;
  }

  lemma {:induction false} SubsetSize(a: set<string>, b: set<string>)
    requires a <= b
    ensures |a| <= |b|
    decreases a
  {
    if a != {} {
      var x :| x in a;
      SubsetSize(a - {x}, b - {x});
    }
  }

  lemma {:induction false} HasKeyShift(members: seq<Member>, key: string)
    requires members != []
    ensures HasKey(members, key) <==> members[0].key == key || HasKey(members[1..], key)
  {
    var tail := members[1..];
    if k :| 0 <= k < |tail| && tail[k].key == key { assert members[k + 1].key == key; }
    if k :| 0 <= k < |members| && members[k].key == key { if k > 0 { assert tail[k - 1].key == key; } }
  }

  lemma {:induction false} IsLastShift(members: seq<Member>, k: nat)
    requires k < |members|
    ensures k > 0 ==> (IsLast(members, k) <==> IsLast(members[1..], k - 1))
    ensures k == 0 ==> (IsLast(members, k) <==> !HasKey(members[1..], members[0].key))
  {
    var tail := members[1..];
    assert forall l :: 1 <= l < |members| ==> members[l] == tail[l - 1];
    assert forall l :: 0 <= l < |tail| ==> tail[l] == members[l + 1];
  }

  lemma {:induction false} RepresentableShift(elem: Schema, members: seq<Member>)
    requires members != []
    ensures AllRepresentable(elem, members) <==>
            Representable(elem, members[0].value) && AllRepresentable(elem, members[1..])
  {
    var tail := members[1..];
    assert forall l :: 1 <= l < |members| ==> members[l] == tail[l - 1];
    assert forall l :: 0 <= l < |tail| ==> tail[l] == members[l + 1];
  }

  lemma {:induction false} LastStoredShift(elem: Schema, members: seq<Member>, x: Value, m': map<string, Value>)
    requires members != []
    requires forall y :: Represents(Zero(elem), elem, members[0].value, y) <==> y == x
    ensures var key := members[0].key;
            LastStored(elem, members, m') <==>
            (HasKey(members[1..], key) || (key in m' && m'[key] == x)) && LastStored(elem, members[1..], m')
  {
    IsLastShift(members, 0);
    if LastStored(elem, members, m') {
      assert IsLast(members, 0) ==> StoredAt(elem, members, 0, m');
      LastStoredTail(elem, members, m');
    }
    if (HasKey(members[1..], members[0].key) || StoredAt(elem, members, 0, m')) && LastStored(elem, members[1..], m') {
      LastStoredWhole(elem, members, m');
    }
  }

  ghost predicate StoredAt(elem: Schema, members: seq<Member>, k: nat, m': map<string, Value>)
    requires k < |members|
  {
    members[k].key in m' && Represents(Zero(elem), elem, members[k].value, m'[members[k].key])
  }

  lemma {:induction false} LastStoredTail(elem: Schema, members: seq<Member>, m': map<string, Value>)
    requires members != [] && LastStored(elem, members, m')
    ensures LastStored(elem, members[1..], m')
  {
    var tail := members[1..];
    forall k | 0 <= k < |tail| && IsLast(tail, k) ensures StoredAt(elem, tail, k, m') {
      IsLastShift(members, k + 1);
      assert StoredAt(elem, members, k + 1, m');
    }
  }

  lemma {:induction false} LastStoredWhole(elem: Schema, members: seq<Member>, m': map<string, Value>)
    requires members != [] && LastStored(elem, members[1..], m')
    requires HasKey(members[1..], members[0].key) || StoredAt(elem, members, 0, m')
    ensures LastStored(elem, members, m')
  {
    forall k | 0 <= k < |members| && IsLast(members, k) ensures StoredAt(elem, members, k, m') {
      IsLastShift(members, k);
      if k > 0 { assert StoredAt(elem, members[1..], k - 1, m'); }
    }
  }

  lemma {:induction false} EntriesShift(m: map<string, Value>, elem: Schema, members: seq<Member>, x: Value,
    m': map<string, Value>)
    requires members != []
    requires forall y :: Represents(Zero(elem), elem, members[0].value, y) <==> y == x
    ensures EntriesAfter(m, elem, members, m') <==> EntriesAfter(m[members[0].key := x], elem, members[1..], m')
  {
    var m1, tail, key := m[members[0].key := x], members[1..], members[0].key;
    assert Represents(Zero(elem), elem, members[0].value, x);
    RepresentableShift(elem, members);
    LastStoredShift(elem, members, x, m');
    KeysShift(m, members, x, m');
    OthersShift(m, members, x, m');
  }

  lemma {:induction false} KeysShift(m: map<string, Value>, members: seq<Member>, x: Value, m': map<string, Value>)
    requires members != []
    ensures KeysOf(m, members, m') <==> KeysOf(m[members[0].key := x], members[1..], m')
  {
    forall key ensures HasKey(members, key) <==> members[0].key == key || HasKey(members[1..], key) {
      HasKeyShift(members, key);
    }
  }

  lemma {:induction false} OthersShift(m: map<string, Value>, members: seq<Member>, x: Value, m': map<string, Value>)
    requires members != []
    ensures var key := members[0].key;
            OthersKept(m[key := x], members[1..], m') <==>
            OthersKept(m, members, m') && (HasKey(members[1..], key) || (key in m' && m'[key] == x))
  {
    var m1 := m[members[0].key := x];
    forall key ensures HasKey(members, key) <==> members[0].key == key || HasKey(members[1..], key) {
      HasKeyShift(members, key);
    }
    assert forall key :: key in m1 <==> key in m || key == members[0].key;
    assert forall key :: key in m && key != members[0].key ==> m1[key] == m[key];
    if OthersKept(m1, members[1..], m') && !HasKey(members[1..], members[0].key) {
      assert members[0].key in m1 && m1[members[0].key] == x;
    }
  }

  /** What a request body decodes to: the first remembered error wins over a limit error, and over success. */
  function Verdict(o: Out): Option<Error> {
    if o.err.Some? then if o.err.value.Limit? && o.first.Some? then o.first else o.err else o.first
  }

  method DecodeBoundedJSON(tokens: seq<Token>, schema: Schema) returns (value: Value, err: Option<Error>)
    requires Proper(schema)
    ensures Shaped(value, schema)
    ensures match ReadValue(tokens)
            case None => err.Some?
            case Some((j, _)) => var o := Decode(Zero(schema), schema, j, "", None);
              value == o.value && err == Verdict(o)
    ensures err.None? ==> ReadValue(tokens).Some? && Represents(Zero(schema), schema, ReadValue(tokens).value.0, value)
    ensures ReadValue(tokens).Some? ==> forall v' :: Represents(Zero(schema), schema, ReadValue(tokens).value.0, v') ==>
              err.None? && value == v'
  {
    ghost var read := ReadValue(tokens);
    if read.Some? {
      forall v' ensures Clean(Decode(Zero(schema), schema, read.value.0, "", None), v') <==>
                        Represents(Zero(schema), schema, read.value.0, v')
      {
        DecodeRepresents(Zero(schema), schema, read.value.0, "", v');
      }
    }
    var d := new Decoder(tokens);
    var e;
    value, e := d.Value(Zero(schema), schema, "");
    if e.Some? {
      if e.value.Limit? && d.firstErr.Some? { return value, d.firstErr; }
      return value, e;
    }
    return value, d.firstErr;
  }

  // Properties of the reference, and so of the streaming decoder.

  /** The standard decoder reports only type and unknown-field errors on complete values. */
  ghost predicate Faultless(s: Schema) {
    match s
    case Plain(judge) => forall j :: judge(j) != Fault
    case Struct(fields) => forall i :: 0 <= i < |fields| ==> Faultless(fields[i].schema)
    case Slice(_, elem) => Faultless(elem)
    case Map(_, elem) => Faultless(elem)
    case Pointer(target) => Faultless(target)
  }

  /** Decoding stops early for a limit only, and a remembered error is never replaced. */
  ghost predicate Orderly(o: Out, first: Option<Error>) {
    && (o.err.Some? ==> o.err.value.Limit?)
    && (first.Some? ==> o.first == first)
    && (o.first.Some? && first.None? ==> o.first.value.TypeMismatch? || o.first.value.UnknownField?)
  }

  lemma {:induction false} DecodeIsOrderly(v: Value, s: Schema, j: Json, path: string, first: Option<Error>)
    requires Shaped(v, s) && Faultless(s)
    ensures Orderly(Decode(v, s, j, path, first), first)
    decreases j, 1, s
  {
    if s.Plain? || j.Null? {
    } else if s.Pointer? {
      DecodeIsOrderly(if v.target.Some? then v.target.value else Zero(s.target), s.target, j, path, first);
    } else if Fits(s, j) {
      if s.Struct? {
        MembersAreOrderly(v, s.fields, j.members, path, first);
      } else if s.Slice? {
        ElemsAreOrderly(v, s.limit, s.elem, j.elems, 0, path, first);
      } else {
        EntriesAreOrderly(v, s.limit, s.elem, j.members, path, first);
      }
    }
  }

  lemma {:induction false} MembersAreOrderly(v: Value, fields: seq<Field>, members: seq<Member>, path: string,
    first: Option<Error>)
    requires Shaped(v, Struct(fields)) && Faultless(Struct(fields))
    ensures Orderly(DecodeMembers(v, fields, members, path, first), first)
    decreases members, 0
  {
    if members != [] {
      var i := Lookup(fields, members[0].key);
      if i.None? {
        MembersAreOrderly(v, fields, members[1..], path, Remember(first, UnknownField(members[0].key)));
      } else {
        var field := fields[i.value];
        var o := Decode(v.fields[i.value], field.schema, members[0].value, Join(path, field.name), first);
        DecodeIsOrderly(v.fields[i.value], field.schema, members[0].value, Join(path, field.name), first);
        if o.err.None? {
          MembersAreOrderly(StructV(v.fields[i.value := o.value]), fields, members[1..], path, o.first);
        }
      }
    }
  }

  lemma {:induction false} ElemsAreOrderly(v: Value, limit: nat, elem: Schema, elems: seq<Json>, n: nat, path: string,
    first: Option<Error>)
    requires Shaped(v, Slice(limit, elem)) && n <= |v.elems| && Faultless(elem)
    ensures var o := DecodeElems(v, limit, elem, elems, n, path, first);
            Orderly(o, first) && (o.err.None? ==> |o.value.elems| == n + |elems| <= limit)
    decreases elems, 0
  {
    if elems != [] && n < limit {
      ExposeShaped(v, limit, elem, n);
      var v1 := Expose(v, elem, n);
      var o := Decode(v1.elems[n], elem, elems[0], path, first);
      DecodeIsOrderly(v1.elems[n], elem, elems[0], path, first);
      if o.err.None? {
        ElemsAreOrderly(v1.(elems := v1.elems[n := o.value]), limit, elem, elems[1..], n + 1, path, o.first);
      }
    }
  }

  lemma {:induction false} EntriesAreOrderly(v: Value, limit: nat, elem: Schema, members: seq<Member>, path: string,
    first: Option<Error>)
    requires Shaped(v, Map(limit, elem)) && Faultless(elem)
    ensures Orderly(DecodeEntries(v, limit, elem, members, path, first), first)
    decreases members, 0
  {
    if members != [] && (members[0].key in v.entries || |v.entries| < limit) {
      var o := Decode(Zero(elem), elem, members[0].value, path, first);
      DecodeIsOrderly(Zero(elem), elem, members[0].value, path, first);
      if o.err.None? {
        EntriesAreOrderly(MapV(v.entries[members[0].key := o.value]), limit, elem, members[1..], path, o.first);
      }
    }
  }

  lemma {:induction false} MembersSplit(v: Value, fields: seq<Field>, ms: seq<Member>, more: seq<Member>, path: string,
    first: Option<Error>)
    requires Shaped(v, Struct(fields))
    ensures var o := DecodeMembers(v, fields, ms, path, first);
            DecodeMembers(v, fields, ms + more, path, first) ==
              if o.err.Some? then o else DecodeMembers(o.value, fields, more, path, o.first)
    decreases ms
  {
    if ms == [] {
      assert ms + more == more;
    } else {
      assert (ms + more)[0] == ms[0] && (ms + more)[1..] == ms[1..] + more;
      var i := Lookup(fields, ms[0].key);
      if i.None? {
        MembersSplit(v, fields, ms[1..], more, path, Remember(first, UnknownField(ms[0].key)));
      } else {
        var field := fields[i.value];
        var o := Decode(v.fields[i.value], field.schema, ms[0].value, Join(path, field.name), first);
        if o.err.None? {
          MembersSplit(StructV(v.fields[i.value := o.value]), fields, ms[1..], more, path, o.first);
        }
      }
    }
  }

  /**
   An error remembered in a prefix of an object is the verdict on the whole object, even if a limit is exceeded later.
   */
  lemma {:induction false} RememberedErrorWins(v: Value, fields: seq<Field>, ms: seq<Member>, more: seq<Member>,
    path: string)
    requires Shaped(v, Struct(fields)) && Faultless(Struct(fields))
    requires DecodeMembers(v, fields, ms, path, None).first.Some? && DecodeMembers(v, fields, ms, path, None).err.None?
    ensures Verdict(DecodeMembers(v, fields, ms + more, path, None)) == DecodeMembers(v, fields, ms, path, None).first
  {
    var o := DecodeMembers(v, fields, ms, path, None);
    MembersSplit(v, fields, ms, more, path, None);
    MembersAreOrderly(o.value, fields, more, path, o.first);
  }

  /**
   Main result: on the tokens of any JSON value, followed by anything, the
   contract of `Decoder.Value` applies with that value and that tail, so the
   decoder stops with a limit error or consumes exactly the value.
   */
  lemma {:induction false} SpelledValueIsDecoded(j: Json, tail: seq<Token>, v: Value, s: Schema, path: string,
    first: Option<Error>)
    requires Shaped(v, s) && Faultless(s)
    ensures ReadValue(Tokens(j) + tail) == Some((j, tail))
    ensures var o := Decode(v, s, j, path, first);
            Orderly(o, first) && (o.err.None? || o.err.value.Limit?)
  {
    ReadsItsTokens(j, tail);
    DecodeIsOrderly(v, s, j, path, first);
  }
}
