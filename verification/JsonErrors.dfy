/**
 Which error a decoded request ends with: everything there is to complain about in a JSON value is listed in document
 order, each complaint with the names of the fields it lies under, and the decoder reports the first of the list.
 */
module JsonErrors {
  import opened Common
  import opened JsonDecoder

  datatype Problem = Mismatch | UnknownKey(key: string) | TooMany(limit: nat) | Faulty

  datatype Complaint = Complaint(names: seq<string>, problem: Problem)

  /** Decoding goes on after a wrong type or an unknown key, and ends at a limit or a fault. */
  predicate Ends(c: Complaint) {
    c.problem.TooMany? || c.problem.Faulty?
  }

  predicate Ended(cs: seq<Complaint>) {
    cs != [] && Ends(cs[|cs| - 1])
  }

  function Within(name: string, cs: seq<Complaint>): (r: seq<Complaint>)
    ensures |r| == |cs| && forall i :: 0 <= i < |cs| ==> r[i] == cs[i].(names := [name] + cs[i].names)
  {
    seq(|cs|, i requires 0 <= i < |cs| => cs[i].(names := [name] + cs[i].names))
  }

  /** What is stored, whatever is complained about. */
  function Stored(v: Value, s: Schema, j: Json): (v': Value)
    requires Shaped(v, s)
    ensures Shaped(v', s)
  {
    Decode(v, s, j, "", None).value
  }

  // The list.

  function Judged(o: Outcome): seq<Complaint> {
    match o
    case Fine => []
    case WrongType(field) => [Complaint(if field == "" then [] else [field], Mismatch)]
    case Unknown(key) => [Complaint([], UnknownKey(key))]
    case Fault => [Complaint([], Faulty)]
  }

  function Complaints(v: Value, s: Schema, j: Json): seq<Complaint>
    requires Shaped(v, s)
    decreases j, 1, s
  {
    if s.Plain? then Judged(s.judge(j))
    else if j.Null? then []
    else if s.Pointer? then Complaints(if v.target.Some? then v.target.value else Zero(s.target), s.target, j)
    else if !Fits(s, j) then [Complaint([], Mismatch)]
    else if s.Struct? then OfMembers(v, s.fields, j.members)
    else if s.Slice? then OfElems(v, s.limit, s.elem, j.elems, 0)
    else OfEntries(v, s.limit, s.elem, j.members)
  }

  function OfMembers(v: Value, fields: seq<Field>, members: seq<Member>): seq<Complaint>
    requires Shaped(v, Struct(fields))
    decreases members, 0
  {
    if members == [] then []
    else
      var i := Lookup(fields, members[0].key);
      if i.None? then [Complaint([], UnknownKey(members[0].key))] + OfMembers(v, fields, members[1..])
      else
        var field, before := fields[i.value], v.fields[i.value];
        var cs := Within(field.name, Complaints(before, field.schema, members[0].value));
        if Ended(cs) then cs
        else
          var v' := StructV(v.fields[i.value := Stored(before, field.schema, members[0].value)]);
          cs + OfMembers(v', fields, members[1..])
  }

  function OfElems(v: Value, limit: nat, elem: Schema, elems: seq<Json>, n: nat): seq<Complaint>
    requires Shaped(v, Slice(limit, elem)) && n <= |v.elems|
    decreases elems, 0
  {
    if elems == [] then []
    else if n >= limit then [Complaint([], TooMany(limit))]
    else
      ExposeShaped(v, limit, elem, n);
      var v1 := Expose(v, elem, n);
      var cs := Complaints(v1.elems[n], elem, elems[0]);
      if Ended(cs) then cs
      else
        var v2 := v1.(elems := v1.elems[n := Stored(v1.elems[n], elem, elems[0])]);
        cs + OfElems(v2, limit, elem, elems[1..], n + 1)
  }

  function OfEntries(v: Value, limit: nat, elem: Schema, members: seq<Member>): seq<Complaint>
    requires Shaped(v, Map(limit, elem))
    decreases members, 0
  {
    if members == [] then []
    else if members[0].key !in v.entries && |v.entries| >= limit then [Complaint([], TooMany(limit))]
    else
      var cs := Complaints(Zero(elem), elem, members[0].value);
      if Ended(cs) then cs
      else
        var v' := MapV(v.entries[members[0].key := Stored(Zero(elem), elem, members[0].value)]);
        cs + OfEntries(v', limit, elem, members[1..])
  }

  // How a complaint is worded.

  function Dotted(path: string, names: seq<string>): string
    decreases names
  {
    if names == [] then path else Dotted(Join(path, names[0]), names[1..])
  }

  function ErrorAt(path: string, c: Complaint): Error {
    match c.problem
    case Mismatch => TypeMismatch(Dotted(path, c.names))
    case UnknownKey(key) => UnknownField(key)
    case TooMany(limit) => Limit(Dotted(path, c.names), limit)
    case Faulty => Broken
  }

  function Behind(names: seq<string>): string {
    if names == [] then "" else ("." + names[0]) + Behind(names[1..])
  }

  /** The names with a dot between one and the next. */
  function Dots(names: seq<string>): string {
    if names == [] then "" else names[0] + Behind(names[1..])
  }

  /** From the top of a request the path of a complaint is its names with dots between them. */
  lemma {:induction false} PathIsDotted(names: seq<string>)
    requires forall i :: 0 <= i < |names| ==> names[i] != ""
    ensures Dotted("", names) == Dots(names)
  {
    if names != [] { DottedBehind(names[0], names[1..]); }
  }

  lemma {:induction false} DottedBehind(path: string, names: seq<string>)
    requires path != ""
    ensures Dotted(path, names) == path + Behind(names)
    decreases |names|
  {
    if names != [] {
      DottedBehind(Join(path, names[0]), names[1..]);
      assert Join(path, names[0]) == path + ("." + names[0]);
      Regroup(path, "." + names[0], Behind(names[1..]));
    } else {
      assert path + "" == path;
    }
  }

  // The decoder reports the list.

  function ErrIn(path: string, cs: seq<Complaint>): Option<Error> {
    if Ended(cs) then Some(ErrorAt(path, cs[|cs| - 1])) else None
  }

  function FirstIn(path: string, cs: seq<Complaint>, first: Option<Error>): Option<Error> {
    if first.Some? then first else if cs != [] && !Ends(cs[0]) then Some(ErrorAt(path, cs[0])) else None
  }

  /** Only the last complaint ends the decoding. */
  predicate EndsLast(cs: seq<Complaint>) {
    forall i :: 0 <= i < |cs| - 1 ==> !Ends(cs[i])
  }

  predicate Reports(o: Out, path: string, first: Option<Error>, cs: seq<Complaint>) {
    EndsLast(cs) && o.err == ErrIn(path, cs) && o.first == FirstIn(path, cs, first)
  }

  lemma {:induction false} WithinReports(o: Out, path: string, name: string, first: Option<Error>, cs: seq<Complaint>)
    requires Reports(o, Join(path, name), first, cs)
    ensures Reports(o, path, first, Within(name, cs))
  {
    forall i | 0 <= i < |cs| ensures ErrorAt(path, Within(name, cs)[i]) == ErrorAt(Join(path, name), cs[i]) {
      assert ([name] + cs[i].names)[1..] == cs[i].names;
    }
  }

  lemma {:induction false} ReportsBoth(o: Out, o': Out, path: string, first: Option<Error>, cs: seq<Complaint>,
    cs': seq<Complaint>)
    requires !Ended(cs) && Reports(o, path, first, cs) && Reports(o', path, o.first, cs')
    ensures Reports(o', path, first, cs + cs')
  {
    assert cs' != [] ==> (cs + cs')[|cs + cs'| - 1] == cs'[|cs'| - 1];
    assert cs != [] ==> (cs + cs')[0] == cs[0];
    assert cs == [] ==> cs + cs' == cs';
    assert cs' == [] ==> cs + cs' == cs;
  }

  lemma {:induction false} PlainReports(v: Value, judge: Json -> Outcome, j: Json, path: string, first: Option<Error>)
    ensures Reports(DecodePlain(v, judge, j, path, first), path, first, Judged(judge(j)))
  {
    if judge(j).WrongType? && judge(j).field != "" {
      var names := [judge(j).field];
      assert names[1..] == [] && Dotted(path, names) == Join(path, judge(j).field);
    }
  }

  lemma {:induction false} DecodeReports(v: Value, s: Schema, j: Json, path: string, first: Option<Error>)
    requires Shaped(v, s)
    ensures Reports(Decode(v, s, j, path, first), path, first, Complaints(v, s, j))
    ensures Decode(v, s, j, path, first).value == Stored(v, s, j)
    decreases j, 1, s
  {
    StoredAnyway(v, s, j, path, first);
    if s.Plain? {
      PlainReports(v, s.judge, j, path, first);
    } else if !j.Null? {
      if s.Pointer? {
        DecodeReports(if v.target.Some? then v.target.value else Zero(s.target), s.target, j, path, first);
      } else if Fits(s, j) {
        if s.Struct? {
          MembersReport(v, s.fields, j.members, path, first);
        } else if s.Slice? {
          ElemsReport(v, s.limit, s.elem, j.elems, 0, path, first);
        } else {
          EntriesReport(v, s.limit, s.elem, j.members, path, first);
        }
      }
    }
  }

  lemma {:induction false} MembersReport(v: Value, fields: seq<Field>, members: seq<Member>, path: string,
    first: Option<Error>)
    requires Shaped(v, Struct(fields))
    ensures Reports(DecodeMembers(v, fields, members, path, first), path, first, OfMembers(v, fields, members))
    decreases members, 0
  {
    if members != [] {
      var i := Lookup(fields, members[0].key);
      if i.None? {
        var c := Complaint([], UnknownKey(members[0].key));
        var first' := Remember(first, UnknownField(members[0].key));
        MembersReport(v, fields, members[1..], path, first');
        ReportsBoth(Out(v, first', None), DecodeMembers(v, fields, members[1..], path, first'), path, first, [c],
                    OfMembers(v, fields, members[1..]));
      } else {
        var field, before := fields[i.value], v.fields[i.value];
        var o := Decode(before, field.schema, members[0].value, Join(path, field.name), first);
        var cs := Complaints(before, field.schema, members[0].value);
        DecodeReports(before, field.schema, members[0].value, Join(path, field.name), first);
        WithinReports(o, path, field.name, first, cs);
        if o.err.None? {
          var v' := StructV(v.fields[i.value := o.value]);
          MembersReport(v', fields, members[1..], path, o.first);
          ReportsBoth(o, DecodeMembers(v', fields, members[1..], path, o.first), path, first, Within(field.name, cs),
                      OfMembers(v', fields, members[1..]));
        }
      }
    }
  }

  lemma {:induction false} ElemsReport(v: Value, limit: nat, elem: Schema, elems: seq<Json>, n: nat, path: string,
    first: Option<Error>)
    requires Shaped(v, Slice(limit, elem)) && n <= |v.elems|
    ensures Reports(DecodeElems(v, limit, elem, elems, n, path, first), path, first, OfElems(v, limit, elem, elems, n))
    decreases elems, 0
  {
    if elems != [] && n < limit {
      ExposeShaped(v, limit, elem, n);
      var v1 := Expose(v, elem, n);
      var o := Decode(v1.elems[n], elem, elems[0], path, first);
      var cs := Complaints(v1.elems[n], elem, elems[0]);
      DecodeReports(v1.elems[n], elem, elems[0], path, first);
      if o.err.None? {
        var v2 := v1.(elems := v1.elems[n := o.value]);
        ElemsReport(v2, limit, elem, elems[1..], n + 1, path, o.first);
        ReportsBoth(o, DecodeElems(v2, limit, elem, elems[1..], n + 1, path, o.first), path, first, cs,
                    OfElems(v2, limit, elem, elems[1..], n + 1));
      }
    }
  }

  lemma {:induction false} EntriesReport(v: Value, limit: nat, elem: Schema, members: seq<Member>, path: string,
    first: Option<Error>)
    requires Shaped(v, Map(limit, elem))
    ensures Reports(DecodeEntries(v, limit, elem, members, path, first), path, first,
                    OfEntries(v, limit, elem, members))
    decreases members, 0
  {
    if members != [] && (members[0].key in v.entries || |v.entries| < limit) {
      var o := Decode(Zero(elem), elem, members[0].value, path, first);
      var cs := Complaints(Zero(elem), elem, members[0].value);
      DecodeReports(Zero(elem), elem, members[0].value, path, first);
      if o.err.None? {
        var v' := MapV(v.entries[members[0].key := o.value]);
        EntriesReport(v', limit, elem, members[1..], path, o.first);
        ReportsBoth(o, DecodeEntries(v', limit, elem, members[1..], path, o.first), path, first, cs,
                    OfEntries(v', limit, elem, members[1..]));
      }
    }
  }

  // What is stored does not depend on the path or on errors remembered before.

  /** The same value, and an end at the same place. */
  predicate Alike(o: Out, o': Out) {
    o.value == o'.value && o.err.Some? == o'.err.Some?
  }

  lemma {:induction false} StoredAnyway(v: Value, s: Schema, j: Json, path: string, first: Option<Error>)
    requires Shaped(v, s)
    ensures Alike(Decode(v, s, j, path, first), Decode(v, s, j, "", None))
    decreases j, 1, s
  {
    if !s.Plain? && !j.Null? {
      if s.Pointer? {
        StoredAnyway(if v.target.Some? then v.target.value else Zero(s.target), s.target, j, path, first);
      } else if Fits(s, j) {
        if s.Struct? {
          MembersAnyway(v, s.fields, j.members, path, first, "", None);
        } else if s.Slice? {
          ElemsAnyway(v, s.limit, s.elem, j.elems, 0, path, first, "", None);
        } else {
          EntriesAnyway(v, s.limit, s.elem, j.members, path, first, "", None);
        }
      }
    }
  }

  lemma {:induction false} MembersAnyway(v: Value, fields: seq<Field>, members: seq<Member>, path: string,
    first: Option<Error>, path': string, first': Option<Error>)
    requires Shaped(v, Struct(fields))
    ensures Alike(DecodeMembers(v, fields, members, path, first), DecodeMembers(v, fields, members, path', first'))
    decreases members, 0
  {
    if members != [] {
      var i := Lookup(fields, members[0].key);
      if i.None? {
        var e := UnknownField(members[0].key);
        MembersAnyway(v, fields, members[1..], path, Remember(first, e), path', Remember(first', e));
      } else {
        var field, before, j := fields[i.value], v.fields[i.value], members[0].value;
        var o := Decode(before, field.schema, j, Join(path, field.name), first);
        var o' := Decode(before, field.schema, j, Join(path', field.name), first');
        StoredAnyway(before, field.schema, j, Join(path, field.name), first);
        StoredAnyway(before, field.schema, j, Join(path', field.name), first');
        if o.err.None? {
          MembersAnyway(StructV(v.fields[i.value := o.value]), fields, members[1..], path, o.first, path', o'.first);
        }
      }
    }
  }

  lemma {:induction false} ElemsAnyway(v: Value, limit: nat, elem: Schema, elems: seq<Json>, n: nat, path: string,
    first: Option<Error>, path': string, first': Option<Error>)
    requires Shaped(v, Slice(limit, elem)) && n <= |v.elems|
    ensures Alike(DecodeElems(v, limit, elem, elems, n, path, first),
                  DecodeElems(v, limit, elem, elems, n, path', first'))
    decreases elems, 0
  {
    if elems != [] && n < limit {
      ExposeShaped(v, limit, elem, n);
      var v1 := Expose(v, elem, n);
      var o, o' := Decode(v1.elems[n], elem, elems[0], path, first), Decode(v1.elems[n], elem, elems[0], path', first');
      StoredAnyway(v1.elems[n], elem, elems[0], path, first);
      StoredAnyway(v1.elems[n], elem, elems[0], path', first');
      if o.err.None? {
        var v2 := v1.(elems := v1.elems[n := o.value]);
        ElemsAnyway(v2, limit, elem, elems[1..], n + 1, path, o.first, path', o'.first);
      }
    }
  }

  lemma {:induction false} EntriesAnyway(v: Value, limit: nat, elem: Schema, members: seq<Member>, path: string,
    first: Option<Error>, path': string, first': Option<Error>)
    requires Shaped(v, Map(limit, elem))
    ensures Alike(DecodeEntries(v, limit, elem, members, path, first),
                  DecodeEntries(v, limit, elem, members, path', first'))
    decreases members, 0
  {
    if members != [] && (members[0].key in v.entries || |v.entries| < limit) {
      var j := members[0].value;
      var o, o' := Decode(Zero(elem), elem, j, path, first), Decode(Zero(elem), elem, j, path', first');
      StoredAnyway(Zero(elem), elem, j, path, first);
      StoredAnyway(Zero(elem), elem, j, path', first');
      if o.err.None? {
        var v' := MapV(v.entries[members[0].key := o.value]);
        EntriesAnyway(v', limit, elem, members[1..], path, o.first, path', o'.first);
      }
    }
  }

  /**
   Main result: a request ends with the first complaint in document order, unless the standard decoder fails on a value
   before a limit is reached; that is reported at once. Without any complaint there is no error.
   */
  lemma {:induction false} FirstComplaintIsReported(s: Schema, j: Json)
    ensures var cs := Complaints(Zero(s), s, j);
            && EndsLast(cs)
            && Verdict(Decode(Zero(s), s, j, "", None)) ==
               if cs == [] then None
               else if cs[|cs| - 1].problem.Faulty? then Some(Broken)
               else Some(ErrorAt("", cs[0]))
  {
    DecodeReports(Zero(s), s, j, "", None);
  }
}
