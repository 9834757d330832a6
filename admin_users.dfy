/** The admin-user management routes (backend/routes/adminUsers.js): the
    filtered list, create with defaults and ordered validation, the
    six-column partial update, and the unconditional delete. */
module AdminUsers {
  import opened Js
  import opened EmailFormat
  import opened Store
  import opened SqlBuilder
  import AuthRoutes

  const MinPasswordLength: nat := 8

  /** One constructor per error message of the routes. */
  datatype AdminUserError =
    | FieldsRequired        // 'Email, password, and full name are required'
    | InvalidEmailFormat    // 'Invalid email format'
    | PasswordTooShort      // 'Password must be at least 8 characters long'
    | EmailTaken            // 'An admin user with this email already exists'
    | NotFound              // 'Admin user not found'
    | NoFieldsToUpdate      // 'No fields to update'
    | UpdateFailed          // the catch block: a UNIQUE violation on email

  function ErrorStatus(e: AdminUserError): nat {
    match e
    case EmailTaken => 409
    case NotFound => 404
    case UpdateFailed => 500
    case _ => 400
  }

  datatype Outcome<T> = Ok(value: T) | Err(error: AdminUserError)

  /** The columns create and PUT return: never the hash. */
  datatype AdminUserView = AdminUserView(id: int, email: string, fullName: string, role: string, status: string,
                                         phone: Option<string>, department: Option<string>)

  datatype DeletedView = DeletedView(id: int, email: string, fullName: string)

  function ViewOf(id: int, row: AdminUserRow): AdminUserView {
    AdminUserView(id, row.email, row.fullName, row.role, row.status, row.phone, row.department)
  }

  function OptionOf(f: Field): Option<string> {
    if f.Given? then Some(f.text) else None
  }

  // ---------------------------------------------------------------------
  // GET /

  /** One filter of the list query. */
  datatype Filter = ByRole(role: string) | ByStatus(status: string) | BySearch(term: string)

  /** The filters a request asks for: one per truthy query parameter, in
      the order role, status, search. */
  function Filters(role: Field, status: Field, search: Field): (r: seq<Filter>)
    ensures |r| == (if Truthy(role) then 1 else 0) + (if Truthy(status) then 1 else 0) + (if Truthy(search) then 1 else 0)
    ensures Truthy(role) ==> ByRole(role.text) in r
    ensures Truthy(status) ==> ByStatus(status.text) in r
    ensures Truthy(search) ==> BySearch(search.text) in r
  {
    (if Truthy(role) then [ByRole(role.text)] else []) +
    (if Truthy(status) then [ByStatus(status.text)] else []) +
    (if Truthy(search) then [BySearch(search.text)] else [])
  }

  /** Every filter comes from a truthy parameter and carries its value. */
  lemma FiltersAreRequested(role: Field, status: Field, search: Field)
    ensures forall f | f in Filters(role, status, search) ::
      match f
      case ByRole(x) => Truthy(role) && x == role.text
      case ByStatus(x) => Truthy(status) && x == status.text
      case BySearch(x) => Truthy(search) && x == search.text
  {
  }

  /** A condition appended to the WHERE clause; `$placeholder` names its
      parameter. */
  datatype Condition =
    | RoleEquals(placeholder: nat)                 // ` AND role = $k`
    | StatusEquals(placeholder: nat)               // ` AND status = $k`
    | NameOrEmailLike(placeholder: nat)            // ` AND (full_name ILIKE $k OR email ILIKE $k)`

  function ConditionOf(f: Filter, placeholder: nat): Condition {
    match f
    case ByRole(_) => RoleEquals(placeholder)
    case ByStatus(_) => StatusEquals(placeholder)
    case BySearch(_) => NameOrEmailLike(placeholder)
  }

  function ParamOf(f: Filter): string {
    match f
    case ByRole(r) => r
    case ByStatus(s) => s
    case BySearch(t) => "%" + t + "%"
  }

  /** The term of a `%term%` pattern. */
  function LikeTerm(pattern: string): string {
    if |pattern| >= 2 && pattern[0] == '%' && pattern[|pattern| - 1] == '%' then pattern[1..|pattern| - 1]
    else pattern
  }

  /** `value ILIKE pattern` for the patterns the list builds. */
  predicate ILike(value: string, pattern: string) {
    MatchesTerm(value, LikeTerm(pattern))
  }

  predicate Holds(row: AdminUserRow, c: Condition, params: seq<string>)
    requires 1 <= c.placeholder <= |params|
  {
    var p := params[c.placeholder - 1];
    match c
    case RoleEquals(_) => row.role == p
    case StatusEquals(_) => row.status == p
    case NameOrEmailLike(_) => ILike(row.fullName, p) || ILike(row.email, p)
  }

  predicate WellNumbered(conditions: seq<Condition>, params: seq<string>) {
    forall k :: 0 <= k < |conditions| ==> 1 <= conditions[k].placeholder <= |params|
  }

  /** The WHERE clause `1=1 AND ...` holds for a row. */
  predicate Satisfies(row: AdminUserRow, conditions: seq<Condition>, params: seq<string>)
    requires WellNumbered(conditions, params)
  {
    forall k :: 0 <= k < |conditions| ==> Holds(row, conditions[k], params)
  }

  /** The rows a list request is meant to return. */
  predicate Selected(row: AdminUserRow, role: Field, status: Field, search: Field) {
    && (Truthy(role) ==> row.role == role.text)
    && (Truthy(status) ==> row.status == status.text)
    && (Truthy(search) ==> MatchesTerm(row.fullName, search.text) || MatchesTerm(row.email, search.text))
  }

  /** The conditions and parameters correspond to the filters, numbered
      in order. */
  predicate BuiltFor(conditions: seq<Condition>, params: seq<string>, fs: seq<Filter>) {
    && |conditions| == |params| == |fs|
    && forall k :: 0 <= k < |fs| ==> conditions[k] == ConditionOf(fs[k], k + 1) && params[k] == ParamOf(fs[k])
  }

  /** Appending a filter's condition and parameter keeps the
      correspondence. */
  lemma BuiltForAppend(conditions: seq<Condition>, params: seq<string>, fs: seq<Filter>, f: Filter)
    requires BuiltFor(conditions, params, fs)
    ensures BuiltFor(conditions + [ConditionOf(f, |fs| + 1)], params + [ParamOf(f)], fs + [f])
  {
  }

  /** The query-building lines of GET /: each truthy parameter appends its
      condition and one parameter, numbered in order; the search term is
      wrapped as `%term%` and used for both columns. */
  method BuildListQuery(role: Field, status: Field, search: Field)
    returns (conditions: seq<Condition>, params: seq<string>, paramIndex: nat)
    ensures BuiltFor(conditions, params, Filters(role, status, search))
    ensures paramIndex == |Filters(role, status, search)| + 1
  {
    conditions, params, paramIndex := [], [], 1;
    ghost var fs: seq<Filter> := [];
    assert BuiltFor(conditions, params, fs);
    if Truthy(role) {
      BuiltForAppend(conditions, params, fs, ByRole(role.text));
      conditions := conditions + [RoleEquals(paramIndex)];
      params := params + [role.text];
      paramIndex := paramIndex + 1;
      fs := fs + [ByRole(role.text)];
    }
    assert BuiltFor(conditions, params, fs) && paramIndex == |fs| + 1;
    assert fs == if Truthy(role) then [ByRole(role.text)] else [];
    if Truthy(status) {
      BuiltForAppend(conditions, params, fs, ByStatus(status.text));
      conditions := conditions + [StatusEquals(paramIndex)];
      params := params + [status.text];
      paramIndex := paramIndex + 1;
      fs := fs + [ByStatus(status.text)];
    }
    assert BuiltFor(conditions, params, fs) && paramIndex == |fs| + 1;
    assert fs == (if Truthy(role) then [ByRole(role.text)] else []) + (if Truthy(status) then [ByStatus(status.text)] else []);
    if Truthy(search) {
      BuiltForAppend(conditions, params, fs, BySearch(search.text));
      conditions := conditions + [NameOrEmailLike(paramIndex)];
      params := params + ["%" + search.text + "%"];
      paramIndex := paramIndex + 1;
      fs := fs + [BySearch(search.text)];
    }
    assert BuiltFor(conditions, params, fs) && paramIndex == |fs| + 1;
    assert fs == Filters(role, status, search);
  }

  lemma LikeTermOfWrapped(t: string)
    ensures LikeTerm("%" + t + "%") == t
  {
    var p := "%" + t + "%";
    assert p[1..|p| - 1] == t;
  }

  /** What one filter demands of a row. */
  predicate FilterHolds(row: AdminUserRow, f: Filter) {
    match f
    case ByRole(r) => row.role == r
    case ByStatus(st) => row.status == st
    case BySearch(t) => MatchesTerm(row.fullName, t) || MatchesTerm(row.email, t)
  }

  /** The requested filters together select exactly the intended rows. */
  lemma FiltersMeanSelected(row: AdminUserRow, role: Field, status: Field, search: Field)
    ensures (forall f | f in Filters(role, status, search) :: FilterHolds(row, f)) <==> Selected(row, role, status, search)
  {
    var fs := Filters(role, status, search);
    FiltersAreRequested(role, status, search);
    if forall f | f in fs :: FilterHolds(row, f) {
      if Truthy(role) {
        assert FilterHolds(row, ByRole(role.text));
      }
      if Truthy(status) {
        assert FilterHolds(row, ByStatus(status.text));
      }
      if Truthy(search) {
        assert FilterHolds(row, BySearch(search.text));
      }
    }
    if Selected(row, role, status, search) {
      forall f | f in fs ensures FilterHolds(row, f) {
      }
    }
  }

  /** The WHERE clause the builder produces selects exactly the rows the
      request asks for. */
  lemma BuiltQuerySelects(row: AdminUserRow, role: Field, status: Field, search: Field,
                          conditions: seq<Condition>, params: seq<string>)
    requires BuiltFor(conditions, params, Filters(role, status, search))
    ensures WellNumbered(conditions, params)
    ensures Satisfies(row, conditions, params) <==> Selected(row, role, status, search)
  {
    var fs := Filters(role, status, search);
    ConditionsMeanFilters(row, fs, conditions, params);
    FiltersMeanSelected(row, role, status, search);
  }

  /** One built condition demands what its filter demands. */
  lemma ConditionMeansFilter(row: AdminUserRow, f: Filter, k: nat, params: seq<string>)
    requires k < |params| && params[k] == ParamOf(f)
    ensures Holds(row, ConditionOf(f, k + 1), params) <==> FilterHolds(row, f)
  {
    if f.BySearch? {
      LikeTermOfWrapped(f.term);
    }
  }

  /** Every filter of a list holds exactly when it holds at every index. */
  lemma AllFiltersByIndex(row: AdminUserRow, fs: seq<Filter>)
    ensures (forall f | f in fs :: FilterHolds(row, f)) <==> (forall k | 0 <= k < |fs| :: FilterHolds(row, fs[k]))
  {
    if !(forall f | f in fs :: FilterHolds(row, f)) {
      var f :| f in fs && !FilterHolds(row, f);
      var k :| 0 <= k < |fs| && fs[k] == f;
    }
  }

  /** Each built condition demands what its filter demands. */
  lemma ConditionsMeanFilters(row: AdminUserRow, fs: seq<Filter>, conditions: seq<Condition>, params: seq<string>)
    requires BuiltFor(conditions, params, fs)
    ensures WellNumbered(conditions, params)
    ensures Satisfies(row, conditions, params) <==> (forall f | f in fs :: FilterHolds(row, f))
  {
    forall k | 0 <= k < |fs|
      ensures 1 <= conditions[k].placeholder <= |params|
      ensures Holds(row, conditions[k], params) <==> FilterHolds(row, fs[k])
    {
      ConditionMeansFilter(row, fs[k], k, params);
    }
    AllFiltersByIndex(row, fs);
  }

  /** GET /: the ids of the rows returned (their order, `ORDER BY
      created_at DESC`, is not modelled). */
  method ListAdminUsers(db: Database, role: Field, status: Field, search: Field) returns (ids: set<int>)
    ensures ids == set id | id in db.adminUsers && Selected(db.adminUsers[id], role, status, search)
  {
    var conditions, params, paramIndex := BuildListQuery(role, status, search);
    SelectionsAgree(db.adminUsers, role, status, search, conditions, params);
    ids := set id | id in db.adminUsers && Satisfies(db.adminUsers[id], conditions, params);
  }

  /** Every built condition names one of the parameters. */
  lemma BuiltWellNumbered(conditions: seq<Condition>, params: seq<string>, fs: seq<Filter>)
    requires BuiltFor(conditions, params, fs)
    ensures WellNumbered(conditions, params)
  {
    forall k | 0 <= k < |conditions| ensures 1 <= conditions[k].placeholder <= |params| {
      assert conditions[k] == ConditionOf(fs[k], k + 1);
    }
  }

  /** Over a whole table, the built WHERE clause picks the requested rows. */
  lemma SelectionsAgree(m: map<int, AdminUserRow>, role: Field, status: Field, search: Field,
                        conditions: seq<Condition>, params: seq<string>)
    requires BuiltFor(conditions, params, Filters(role, status, search))
    ensures WellNumbered(conditions, params)
    ensures (set id | id in m && Satisfies(m[id], conditions, params))
         == (set id | id in m && Selected(m[id], role, status, search))
  {
    BuiltWellNumbered(conditions, params, Filters(role, status, search));
    forall id | id in m
      ensures Satisfies(m[id], conditions, params) <==> Selected(m[id], role, status, search)
    {
      BuiltQuerySelects(m[id], role, status, search, conditions, params);
    }
  }

  /** Without query parameters the list holds every admin user. */
  lemma NoFiltersSelectAll(row: AdminUserRow)
    ensures Selected(row, Absent, Absent, Absent)
    ensures Filters(Absent, Absent, Absent) == []
  {
  }

  // ---------------------------------------------------------------------
  // POST /

  /** POST /: role defaults to 'admin' and status to 'active' when not
      sent. `passwordHash` is the bcrypt hash of the password. */
  method CreateAdminUser(db: Database, email: Field, password: Field, fullName: Field, role: Field,
                         status: Field, phone: Field, department: Field, createdBy: Field, passwordHash: string)
    returns (r: Outcome<AdminUserView>)
    requires db.Valid()
    modifies db`adminUsers, db`nextAdminUserId
    ensures db.Valid()
    ensures !Truthy(email) || !Truthy(password) || !Truthy(fullName) ==> r == Err(FieldsRequired)
    ensures Truthy(email) && Truthy(password) && Truthy(fullName) ==>
      && (!MatchesEmailRegex(email.text) ==> r == Err(InvalidEmailFormat))
      && (MatchesEmailRegex(email.text) && Utf16Length(password.text) < MinPasswordLength ==> r == Err(PasswordTooShort))
      && ((MatchesEmailRegex(email.text) && Utf16Length(password.text) >= MinPasswordLength &&
           AuthRoutes.HasAdminEmail(old(db.adminUsers), email.text)) ==> r == Err(EmailTaken))
    // every check passed: the row is inserted
    ensures Truthy(email) && Truthy(password) && Truthy(fullName) && MatchesEmailRegex(email.text) &&
            Utf16Length(password.text) >= MinPasswordLength &&
            !AuthRoutes.HasAdminEmail(old(db.adminUsers), email.text) ==>
      r.Ok?
    ensures r.Err? ==>
      db.adminUsers == old(db.adminUsers) && db.nextAdminUserId == old(db.nextAdminUserId)
    ensures r.Ok? ==>
      && Truthy(email) && Truthy(password) && Truthy(fullName)
      && WellFormedEmail(email.text) && Utf16Length(password.text) >= MinPasswordLength
      && !AuthRoutes.HasAdminEmail(old(db.adminUsers), email.text)
      && var id := old(db.nextAdminUserId);
         var row := AdminUserRow(email.text, passwordHash, fullName.text,
                                 if role.Given? then role.text else "admin",
                                 if status.Given? then status.text else "active",
                                 OptionOf(phone), OptionOf(department), None, OptionOf(createdBy));
         && id !in old(db.adminUsers)
         && db.adminUsers == old(db.adminUsers)[id := row]
         && db.nextAdminUserId == id + 1
         && r.value == ViewOf(id, row)
  {
    if !Truthy(email) || !Truthy(password) || !Truthy(fullName) {
      return Err(FieldsRequired);
    }
    if !MatchesEmailRegex(email.text) {
      return Err(InvalidEmailFormat);
    }
    if Utf16Length(password.text) < MinPasswordLength {
      return Err(PasswordTooShort);
    }
    if AuthRoutes.HasAdminEmail(db.adminUsers, email.text) {
      return Err(EmailTaken);
    }
    RegexImpliesWellFormed(email.text);
    var id := db.nextAdminUserId;
    var row := AdminUserRow(email.text, passwordHash, fullName.text,
                            if role.Given? then role.text else "admin",
                            if status.Given? then status.text else "active",
                            OptionOf(phone), OptionOf(department), None, OptionOf(createdBy));
    db.adminUsers := db.adminUsers[id := row];
    db.nextAdminUserId := id + 1;
    r := Ok(ViewOf(id, row));
  }

  // ---------------------------------------------------------------------
  // PUT /:id

  /** The assignment `column = value` on an admin_users row. */
  function SetColumn(row: AdminUserRow, column: Column, value: string): AdminUserRow {
    match column
    case EmailColumn => row.(email := value)
    case FullNameColumn => row.(fullName := value)
    case RoleColumn => row.(role := value)
    case StatusColumn => row.(status := value)
    case PhoneColumn => row.(phone := Some(value))
    case DepartmentColumn => row.(department := Some(value))
  }

  /** The intended effect of PUT /:id: sent fields replace stored ones. */
  function Patch(row: AdminUserRow, email: Field, fullName: Field, role: Field, status: Field,
                 phone: Field, department: Field): AdminUserRow {
    row.(email := if email.Given? then email.text else row.email,
         fullName := if fullName.Given? then fullName.text else row.fullName,
         role := if role.Given? then role.text else row.role,
         status := if status.Given? then status.text else row.status,
         phone := if phone.Given? then Some(phone.text) else row.phone,
         department := if department.Given? then Some(department.text) else row.department)
  }

  function PutFields(email: Field, fullName: Field, role: Field, status: Field, phone: Field,
                     department: Field): seq<(Column, Field)> {
    [(EmailColumn, email), (FullNameColumn, fullName), (RoleColumn, role), (StatusColumn, status),
     (PhoneColumn, phone), (DepartmentColumn, department)]
  }

  /** The first two fields of PUT /:id amount to the patch of e-mail and
      name alone. */
  lemma NamePrefixAppliesPatch(row: AdminUserRow, email: Field, fullName: Field)
    ensures Apply(row, Defined([(EmailColumn, email), (FullNameColumn, fullName)]), SetColumn)
         == Patch(row, email, fullName, Absent, Absent, Absent, Absent)
  {
    var f1 := [(EmailColumn, email)];
    assert f1 == [] + [(EmailColumn, email)];
    assert [(EmailColumn, email), (FullNameColumn, fullName)] == f1 + [(FullNameColumn, fullName)];
    ApplySuppliedStep(row, [], EmailColumn, email, SetColumn);
    ApplySuppliedStep(row, f1, FullNameColumn, fullName, SetColumn);
  }

  /** ... then the role. */
  lemma RolePrefixAppliesPatch(row: AdminUserRow, email: Field, fullName: Field, role: Field)
    ensures Apply(row, Defined([(EmailColumn, email), (FullNameColumn, fullName), (RoleColumn, role)]), SetColumn)
         == Patch(row, email, fullName, role, Absent, Absent, Absent)
  {
    var f := [(EmailColumn, email), (FullNameColumn, fullName)];
    assert [(EmailColumn, email), (FullNameColumn, fullName), (RoleColumn, role)] == f + [(RoleColumn, role)];
    NamePrefixAppliesPatch(row, email, fullName);
    ApplySuppliedStep(row, f, RoleColumn, role, SetColumn);
  }

  /** ... then the status. */
  lemma StatusPrefixAppliesPatch(row: AdminUserRow, email: Field, fullName: Field, role: Field, status: Field)
    ensures Apply(row, Defined([(EmailColumn, email), (FullNameColumn, fullName), (RoleColumn, role),
                                (StatusColumn, status)]), SetColumn)
         == Patch(row, email, fullName, role, status, Absent, Absent)
  {
    var f := [(EmailColumn, email), (FullNameColumn, fullName), (RoleColumn, role)];
    assert [(EmailColumn, email), (FullNameColumn, fullName), (RoleColumn, role), (StatusColumn, status)]
        == f + [(StatusColumn, status)];
    RolePrefixAppliesPatch(row, email, fullName, role);
    ApplySuppliedStep(row, f, StatusColumn, status, SetColumn);
  }

  /** ... then the phone. */
  lemma PhonePrefixAppliesPatch(row: AdminUserRow, email: Field, fullName: Field, role: Field, status: Field,
                                phone: Field)
    ensures Apply(row, Defined([(EmailColumn, email), (FullNameColumn, fullName), (RoleColumn, role),
                                (StatusColumn, status), (PhoneColumn, phone)]), SetColumn)
         == Patch(row, email, fullName, role, status, phone, Absent)
  {
    var f := [(EmailColumn, email), (FullNameColumn, fullName), (RoleColumn, role), (StatusColumn, status)];
    assert [(EmailColumn, email), (FullNameColumn, fullName), (RoleColumn, role), (StatusColumn, status),
            (PhoneColumn, phone)] == f + [(PhoneColumn, phone)];
    StatusPrefixAppliesPatch(row, email, fullName, role, status);
    ApplySuppliedStep(row, f, PhoneColumn, phone, SetColumn);
  }

  /** The fields of PUT /:id, assigned in order, amount to the patch. */
  lemma PutAppliesPatch(row: AdminUserRow, email: Field, fullName: Field, role: Field, status: Field,
                        phone: Field, department: Field)
    ensures Apply(row, Defined(PutFields(email, fullName, role, status, phone, department)), SetColumn)
         == Patch(row, email, fullName, role, status, phone, department)
  {
    var f := [(EmailColumn, email), (FullNameColumn, fullName), (RoleColumn, role), (StatusColumn, status),
              (PhoneColumn, phone)];
    assert PutFields(email, fullName, role, status, phone, department) == f + [(DepartmentColumn, department)];
    PhonePrefixAppliesPatch(row, email, fullName, role, status, phone);
    ApplySuppliedStep(row, f, DepartmentColumn, department, SetColumn);
  }

  predicate NothingSent(email: Field, fullName: Field, role: Field, status: Field, phone: Field, department: Field) {
    email.Absent? && fullName.Absent? && role.Absent? && status.Absent? && phone.Absent? && department.Absent?
  }

  /** The statement built from the PUT fields, with the id appended, is
      well numbered, is empty exactly when nothing was sent, and performs
      the patch on any row. */
  lemma PutStatementPerformsPatch(email: Field, fullName: Field, role: Field, status: Field, phone: Field,
                                  department: Field, id: int)
    ensures var s := Defined(PutFields(email, fullName, role, status, phone, department));
      var params := Values(s) + [IdParam(id)];
      && PlaceholdersBound(Numbered(s), params)
      && |params| == |Numbered(s)| + 1 && params[|Numbered(s)|] == IdParam(id)
      && (|Numbered(s)| == 0 <==> NothingSent(email, fullName, role, status, phone, department))
      && forall row :: Execute(row, Numbered(s), params, SetColumn) == Patch(row, email, fullName, role, status, phone, department)
  {
    var fields := PutFields(email, fullName, role, status, phone, department);
    var s := Defined(fields);
    NoneSupplied(fields);
    assert email.Absent? <==> fields[0].1.Absent?;
    assert fullName.Absent? <==> fields[1].1.Absent?;
    assert role.Absent? <==> fields[2].1.Absent?;
    assert status.Absent? <==> fields[3].1.Absent?;
    assert phone.Absent? <==> fields[4].1.Absent?;
    assert department.Absent? <==> fields[5].1.Absent?;
    BuiltStatementShape(s, id);
    forall row ensures Execute(row, Numbered(s), Values(s) + [IdParam(id)], SetColumn)
                       == Patch(row, email, fullName, role, status, phone, department) {
      ExecuteBuiltSet(row, s, id, SetColumn);
      PutAppliesPatch(row, email, fullName, role, status, phone, department);
    }
  }

  /** The lines building the SET list and parameters of PUT /:id. */
  method BuildPut(email: Field, fullName: Field, role: Field, status: Field, phone: Field, department: Field, id: int)
    returns (updates: seq<Assignment>, params: seq<Param>)
    ensures var s := Defined(PutFields(email, fullName, role, status, phone, department));
      updates == Numbered(s) && params == Values(s) + [IdParam(id)]
    ensures PlaceholdersBound(updates, params) && |params| == |updates| + 1 && params[|updates|] == IdParam(id)
    ensures |updates| == 0 <==> NothingSent(email, fullName, role, status, phone, department)
    ensures forall row :: Execute(row, updates, params, SetColumn) == Patch(row, email, fullName, role, status, phone, department)
  {
    var paramIndex: nat := 1;
    updates, params := [], [];
    ghost var fields: seq<(Column, Field)> := [];
    updates, params, paramIndex := PushIfDefined(updates, params, paramIndex, fields, EmailColumn, email);
    fields := fields + [(EmailColumn, email)];
    updates, params, paramIndex := PushIfDefined(updates, params, paramIndex, fields, FullNameColumn, fullName);
    fields := fields + [(FullNameColumn, fullName)];
    updates, params, paramIndex := PushIfDefined(updates, params, paramIndex, fields, RoleColumn, role);
    fields := fields + [(RoleColumn, role)];
    updates, params, paramIndex := PushIfDefined(updates, params, paramIndex, fields, StatusColumn, status);
    fields := fields + [(StatusColumn, status)];
    updates, params, paramIndex := PushIfDefined(updates, params, paramIndex, fields, PhoneColumn, phone);
    fields := fields + [(PhoneColumn, phone)];
    updates, params, paramIndex := PushIfDefined(updates, params, paramIndex, fields, DepartmentColumn, department);
    fields := fields + [(DepartmentColumn, department)];
    assert fields == PutFields(email, fullName, role, status, phone, department);
    params := params + [IdParam(id)];
    assert paramIndex == |params|;
    PutStatementPerformsPatch(email, fullName, role, status, phone, department, id);
  }

  /** `SELECT id FROM admin_users WHERE email = $1 AND id != $2` finds a row. */
  predicate TakenByOther(m: map<int, AdminUserRow>, email: string, id: int) {
    exists other :: other in m && other != id && m[other].email == email
  }

  lemma UpdateKeepsUnique(m: map<int, AdminUserRow>, id: int, row: AdminUserRow)
    requires UniqueAdminEmails(m) && id in m && !TakenByOther(m, row.email, id)
    ensures UniqueAdminEmails(m[id := row])
  {
  }

  /** PUT /:id */
  method UpdateAdminUser(db: Database, id: int, email: Field, fullName: Field, role: Field, status: Field,
                         phone: Field, department: Field)
    returns (r: Outcome<AdminUserView>)
    requires db.Valid()
    modifies db`adminUsers
    ensures db.Valid()
    ensures id !in old(db.adminUsers) ==> r == Err(NotFound)
    ensures id in old(db.adminUsers) && Truthy(email) && TakenByOther(old(db.adminUsers), email.text, id) ==>
      r == Err(EmailTaken)
    ensures id in old(db.adminUsers) && !(Truthy(email) && TakenByOther(old(db.adminUsers), email.text, id)) &&
            NothingSent(email, fullName, role, status, phone, department) ==>
      r == Err(NoFieldsToUpdate)
    ensures r.Err? ==> db.adminUsers == old(db.adminUsers)
    ensures r.Ok? ==>
      && id in old(db.adminUsers)
      && !NothingSent(email, fullName, role, status, phone, department)
      && var row := Patch(old(db.adminUsers)[id], email, fullName, role, status, phone, department);
         db.adminUsers == old(db.adminUsers)[id := row] && r.value == ViewOf(id, row)
    ensures id in old(db.adminUsers) && !(Truthy(email) && TakenByOther(old(db.adminUsers), email.text, id)) &&
            !NothingSent(email, fullName, role, status, phone, department) ==>
      (r == Err(UpdateFailed) <==>
         TakenByOther(old(db.adminUsers),
                      Patch(old(db.adminUsers)[id], email, fullName, role, status, phone, department).email, id))
    // every check passed and the patched e-mail is free: the row is updated
    ensures id in old(db.adminUsers) && !(Truthy(email) && TakenByOther(old(db.adminUsers), email.text, id)) &&
            !NothingSent(email, fullName, role, status, phone, department) &&
            !TakenByOther(old(db.adminUsers),
                          Patch(old(db.adminUsers)[id], email, fullName, role, status, phone, department).email, id) ==>
      r.Ok?
  {
    if id !in db.adminUsers {
      return Err(NotFound);
    }
    if Truthy(email) && TakenByOther(db.adminUsers, email.text, id) {
      return Err(EmailTaken);
    }
    var updates, params := BuildPut(email, fullName, role, status, phone, department, id);
    if |updates| == 0 {
      return Err(NoFieldsToUpdate);
    }
    var updated := Execute(db.adminUsers[id], updates, params, SetColumn);
    if TakenByOther(db.adminUsers, updated.email, id) {
      return Err(UpdateFailed);
    }
    UpdateKeepsUnique(db.adminUsers, id, updated);
    db.adminUsers := db.adminUsers[id := updated];
    r := Ok(ViewOf(id, updated));
  }

  // ---------------------------------------------------------------------
  // DELETE /:id

  /** DELETE /:id: no guard; 404 only when no row was removed. */
  method DeleteAdminUser(db: Database, id: int) returns (r: Outcome<DeletedView>)
    requires db.Valid()
    modifies db`adminUsers
    ensures db.Valid()
    ensures db.adminUsers == old(db.adminUsers) - {id}
    ensures r.Err? <==> id !in old(db.adminUsers)
    ensures r.Err? ==> r.error == NotFound
    ensures r.Ok? ==> r.value == DeletedView(id, old(db.adminUsers)[id].email, old(db.adminUsers)[id].fullName)
  {
    if id !in db.adminUsers {
      return Err(NotFound);
    }
    var deleted := db.adminUsers[id];
    db.adminUsers := db.adminUsers - {id};
    r := Ok(DeletedView(id, deleted.email, deleted.fullName));
  }
}
