/** The partial-update builder the PUT handlers share: for each column, in
    a fixed order, a field that is not `undefined` pushes `column = $k`
    onto `updates` and its value onto `params`, and `paramIndex` counts
    on; the row id goes last, as `$paramIndex`. Executing the statement
    assigns each value to its column in order. */
module SqlBuilder {
  import opened Js

  datatype Column = EmailColumn | FullNameColumn | RoleColumn | StatusColumn | PhoneColumn | DepartmentColumn

  /** One entry of the `params` array. */
  datatype Param = TextParam(text: string) | IdParam(id: int)

  /** One entry of the `updates` array: `column = $placeholder`. */
  datatype Assignment = Assignment(column: Column, placeholder: nat)

  /** The fields that are not `undefined`, with their values, in the order
      the handler tests them. */
  function Defined(fields: seq<(Column, Field)>): (r: seq<(Column, string)>)
    ensures |r| <= |fields|
  {
    if fields == [] then []
    else
      var last := fields[|fields| - 1];
      var init := Defined(fields[..|fields| - 1]);
      if last.1.Given? then init + [(last.0, last.1.text)] else init
  }

  /** Every supplied value comes from a field that is not `undefined`,
      under that field's column. */
  lemma {:induction false} DefinedFromFields(fields: seq<(Column, Field)>)
    ensures forall p | p in Defined(fields) ::
      exists k :: 0 <= k < |fields| && fields[k].1.Given? && p == (fields[k].0, fields[k].1.text)
    decreases |fields|
  {
    if fields != [] {
      var init := fields[..|fields| - 1];
      DefinedFromFields(init);
      forall p | p in Defined(fields)
        ensures exists k :: 0 <= k < |fields| && fields[k].1.Given? && p == (fields[k].0, fields[k].1.text)
      {
        if p in Defined(init) {
          var k :| 0 <= k < |init| && init[k].1.Given? && p == (init[k].0, init[k].1.text);
          assert fields[k] == init[k];
        } else {
          assert fields[|fields| - 1].1.Given? && p == (fields[|fields| - 1].0, fields[|fields| - 1].1.text);
        }
      }
    }
  }

  /** The `updates` array for the supplied fields: placeholders 1, 2, ... */
  function Numbered(s: seq<(Column, string)>): (r: seq<Assignment>)
    ensures |r| == |s|
  {
    seq(|s|, k requires 0 <= k < |s| => Assignment(s[k].0, k + 1))
  }

  /** The values pushed onto `params`, in the same order. */
  function Values(s: seq<(Column, string)>): (r: seq<Param>)
    ensures |r| == |s|
  {
    seq(|s|, k requires 0 <= k < |s| => TextParam(s[k].1))
  }

  /** `if (value !== undefined) { updates.push(`column = $${paramIndex}`);
      params.push(value); paramIndex++; }`. The ghost `fields` are the
      fields tested so far; the arrays stay those of the supplied ones and
      `paramIndex` stays one past the last placeholder used. */
  method PushIfDefined(updates: seq<Assignment>, params: seq<Param>, paramIndex: nat,
                       ghost fields: seq<(Column, Field)>, column: Column, value: Field)
    returns (updates': seq<Assignment>, params': seq<Param>, paramIndex': nat)
    requires updates == Numbered(Defined(fields)) && params == Values(Defined(fields))
    requires paramIndex == |Defined(fields)| + 1
    ensures updates' == Numbered(Defined(fields + [(column, value)]))
    ensures params' == Values(Defined(fields + [(column, value)]))
    ensures paramIndex' == |Defined(fields + [(column, value)])| + 1
  {
    var all := fields + [(column, value)];
    assert all[..|all| - 1] == fields;
    updates', params', paramIndex' := updates, params, paramIndex;
    if value.Given? {
      updates' := updates' + [Assignment(column, paramIndex')];
      params' := params' + [TextParam(value.text)];
      paramIndex' := paramIndex' + 1;
    }
  }

  /** Every placeholder of the SET list names a value of `params`. */
  predicate PlaceholdersBound(updates: seq<Assignment>, params: seq<Param>) {
    forall k :: 0 <= k < |updates| ==>
      1 <= updates[k].placeholder <= |params| && params[updates[k].placeholder - 1].TextParam?
  }

  /** What `UPDATE ... SET <updates> WHERE id = $n` does to the row: each
      assignment in turn stores its parameter in its column. */
  function Execute<R>(row: R, updates: seq<Assignment>, params: seq<Param>,
                      setColumn: (R, Column, string) -> R): R
    requires PlaceholdersBound(updates, params)
    decreases |updates|
  {
    if updates == [] then row
    else
      var a := updates[|updates| - 1];
      setColumn(Execute(row, updates[..|updates| - 1], params, setColumn), a.column, params[a.placeholder - 1].text)
  }

  /** The reference meaning of a partial update: store each supplied value
      in its column, in order. */
  function Apply<R>(row: R, s: seq<(Column, string)>, setColumn: (R, Column, string) -> R): R
    decreases |s|
  {
    if s == [] then row
    else setColumn(Apply(row, s[..|s| - 1], setColumn), s[|s| - 1].0, s[|s| - 1].1)
  }

  /** The parameter list is well numbered: n values, then the id as
      parameter n + 1, and every `$k` of the SET list names the k-th
      value. */
  lemma BuiltStatementConsistent(s: seq<(Column, string)>, id: int)
    ensures var params := Values(s) + [IdParam(id)];
      && |params| == |s| + 1
      && params[|s|] == IdParam(id)
      && PlaceholdersBound(Numbered(s), params)
      && forall k :: 0 <= k < |s| ==> Numbered(s)[k].placeholder == k + 1 && params[k] == TextParam(s[k].1)
  {
  }

  /** The statement a handler sends: the SET list of the supplied fields
      and their values with the id appended, every placeholder bound. */
  lemma BuiltStatementShape(s: seq<(Column, string)>, id: int)
    ensures var params := Values(s) + [IdParam(id)];
      && PlaceholdersBound(Numbered(s), params)
      && |params| == |Numbered(s)| + 1 && params[|Numbered(s)|] == IdParam(id)
  {
    BuiltPlaceholdersBound(s, id);
  }

  /** Every placeholder of the built SET list names a value. */
  lemma BuiltPlaceholdersBound(s: seq<(Column, string)>, id: int)
    ensures PlaceholdersBound(Numbered(s), Values(s) + [IdParam(id)])
  {
  }

  /** The last supplied field is the last assignment, numbered |s|, and
      the rest are the assignments of the fields before it. */
  lemma LastAssignment(s: seq<(Column, string)>, id: int)
    requires s != []
    ensures var n := |s|;
      && Numbered(s)[..n - 1] == Numbered(s[..n - 1])
      && Numbered(s)[n - 1] == Assignment(s[n - 1].0, n)
      && (Values(s) + [IdParam(id)])[n - 1] == TextParam(s[n - 1].1)
  {
  }

  /** The fields before the last name the same values in either
      statement's parameters. */
  lemma InitParamsAgree(s: seq<(Column, string)>, id: int)
    requires s != []
    ensures var init := s[..|s| - 1];
      var u, p, q := Numbered(init), Values(init) + [IdParam(id)], Values(s) + [IdParam(id)];
      && PlaceholdersBound(u, p) && PlaceholdersBound(u, q)
      && forall k :: 0 <= k < |u| ==> p[u[k].placeholder - 1] == q[u[k].placeholder - 1]
  {
    var init := s[..|s| - 1];
    var u, p, q := Numbered(init), Values(init) + [IdParam(id)], Values(s) + [IdParam(id)];
    forall k | 0 <= k < |init|
      ensures u[k].placeholder == k + 1 && p[k] == TextParam(s[k].1) && q[k] == TextParam(s[k].1)
    {
      assert init[k] == s[k];
    }
  }

  /** Executing the statement the builder produced performs exactly the
      partial update: the SQL text and the parameters line up. */
  lemma {:induction false} ExecuteBuiltSet<R>(row: R, s: seq<(Column, string)>, id: int,
                                               setColumn: (R, Column, string) -> R)
    ensures PlaceholdersBound(Numbered(s), Values(s) + [IdParam(id)])
    ensures Execute(row, Numbered(s), Values(s) + [IdParam(id)], setColumn) == Apply(row, s, setColumn)
    decreases |s|
  {
    BuiltPlaceholdersBound(s, id);
    if s != [] {
      var init := s[..|s| - 1];
      LastAssignment(s, id);
      InitParamsAgree(s, id);
      ExecuteBuiltSet(row, init, id, setColumn);
      ExecuteWithMoreParams(row, Numbered(init), Values(init) + [IdParam(id)], Values(s) + [IdParam(id)], setColumn);
    }
  }

  /** Execution only reads the parameters the placeholders name. */
  lemma {:induction false} ExecuteWithMoreParams<R>(row: R, updates: seq<Assignment>, p: seq<Param>, q: seq<Param>,
                                                     setColumn: (R, Column, string) -> R)
    requires PlaceholdersBound(updates, p) && PlaceholdersBound(updates, q)
    requires forall k :: 0 <= k < |updates| ==> p[updates[k].placeholder - 1] == q[updates[k].placeholder - 1]
    ensures Execute(row, updates, p, setColumn) == Execute(row, updates, q, setColumn)
    decreases |updates|
  {
    if updates != [] {
      var init := updates[..|updates| - 1];
      assert forall k :: 0 <= k < |init| ==> init[k] == updates[k];
      ExecuteWithMoreParams(row, init, p, q, setColumn);
    }
  }

  /** One step of the reference update per field tested. */
  lemma ApplySuppliedStep<R>(row: R, fields: seq<(Column, Field)>, column: Column, value: Field,
                             setColumn: (R, Column, string) -> R)
    ensures Apply(row, Defined(fields + [(column, value)]), setColumn) ==
      if value.Given? then setColumn(Apply(row, Defined(fields), setColumn), column, value.text)
      else Apply(row, Defined(fields), setColumn)
  {
    var all := fields + [(column, value)];
    assert all[..|all| - 1] == fields;
    if value.Given? {
      var s := Defined(fields) + [(column, value.text)];
      assert s[..|s| - 1] == Defined(fields);
    }
  }

  /** An empty SET list is exactly "no field supplied". */
  lemma {:induction false} NoneSupplied(fields: seq<(Column, Field)>)
    ensures Defined(fields) == [] <==> forall k :: 0 <= k < |fields| ==> fields[k].1.Absent?
    decreases |fields|
  {
    if fields != [] {
      var init := fields[..|fields| - 1];
      NoneSupplied(init);
      assert forall k :: 0 <= k < |init| ==> init[k] == fields[k];
    }
  }
}
