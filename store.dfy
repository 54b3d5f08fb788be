/** The relational store that the query classes of src/database/queries.ts
    talk to, modelled in memory. Each table is a sequence of rows in insertion
    order; because every timestamp is the store clock at insertion, "newest
    first" is the reverse of insertion order. The identifiers the database
    mints (`gen_random_uuid()`) and the clock are parameters of the inserts. */
module Store {
  import opened Wrappers
  import opened Constants
  import opened JsValues

  datatype User = User(
    id: string, email: string, passwordHash: string, organizationName: string,
    certificateCount: int, isPremium: bool, createdAt: int, lastLogin: Option<int>)

  datatype DefaultTemplate = DefaultTemplate(
    id: string, name: string, previewImagePath: string, baseImagePath: string,
    defaultTextX: int, defaultTextY: int, defaultFontSize: int,
    defaultFontColor: string, defaultPrimaryColor: string, isActive: bool)

  /** `template_type`: 'default' or 'custom'. */
  datatype TemplateType = DefaultType | CustomType

  datatype Template = Template(
    id: string, userId: string, templateType: TemplateType,
    defaultTemplateId: Option<string>, customImagePath: Option<string>, logoPath: Option<string>,
    primaryColor: string, textX: int, textY: int, fontSize: int, fontColor: string,
    fontFamily: string, createdAt: int)

  /** A row of `TemplateQueries.findById`: the template, LEFT JOINed with the
      name and base image path of its default template. */
  datatype TemplateRow = TemplateRow(
    template: Template, defaultTemplateName: Option<string>, defaultBaseImagePath: Option<string>)

  datatype Certificate = Certificate(
    id: string, userId: string, participantName: string, eventName: string,
    batchId: string, isActive: bool, generatedAt: int)

  /** A certificate joined with its owner's `organization_name`. */
  datatype CertificateWithUser = CertificateWithUser(certificate: Certificate, organizationName: string)

  datatype Batch = Batch(
    id: string, userId: string, eventName: string, participantCount: int,
    status: BatchStatus, filePath: Option<string>, createdAt: int, completedAt: Option<int>)

  /** The argument of `DefaultTemplateQueries.create`; `None` and falsy values
      fall back to the defaults the query substitutes. */
  datatype DefaultTemplateInput = DefaultTemplateInput(
    name: string, previewImagePath: string, baseImagePath: string,
    defaultTextX: int, defaultTextY: int, defaultFontSize: Option<int>,
    defaultFontColor: Option<string>, defaultPrimaryColor: Option<string>)

  /** The argument of `TemplateQueries.create`. */
  datatype TemplateInput = TemplateInput(
    userId: string, templateType: TemplateType, defaultTemplateId: Option<string>,
    customImagePath: Option<string>, logoPath: Option<string>, primaryColor: string,
    textX: int, textY: int, fontSize: int, fontColor: string, fontFamily: string)

  /** The message PostgreSQL gives when an insert repeats a primary key. */
  const DUPLICATE_KEY: string := "duplicate key value violates unique constraint"

  // Primary keys, as named functions so that they can be passed around.
  function UserKey(u: User): string { u.id }
  function DefaultTemplateKey(d: DefaultTemplate): string { d.id }
  function DefaultTemplateName(d: DefaultTemplate): string { d.name }
  function TemplateKey(t: Template): string { t.id }
  function CertificateKey(c: Certificate): string { c.id }
  function BatchKey(b: Batch): string { b.id }

  /** No two rows share a key. */
  ghost predicate DistinctKeys<T>(s: seq<T>, key: T -> string) {
    forall i, j :: 0 <= i < j < |s| ==> key(s[i]) != key(s[j])
  }

  predicate HasKey<T>(s: seq<T>, key: T -> string, k: string) {
    exists i :: 0 <= i < |s| && key(s[i]) == k
  }

  /** The first row whose key is `k`: `SELECT ... WHERE id = $1` returning `rows[0]`. */
  function FindByKey<T>(s: seq<T>, key: T -> string, k: string): (r: Option<T>)
    ensures r.Some? ==> r.value in s && key(r.value) == k
    ensures r.None? <==> !HasKey(s, key, k)
  {
    if s == [] then None
    else if key(s[0]) == k then Some(s[0])
    else
      var r := FindByKey(s[1..], key, k);
      assert HasKey(s, key, k) ==> key(s[0]) == k || HasKey(s[1..], key, k) by {
        if HasKey(s, key, k) {
          var i :| 0 <= i < |s| && key(s[i]) == k;
          if i > 0 { assert key(s[1..][i - 1]) == k; }
        }
      }
      r
  }

  /** Appending a row never changes the answer for a key already present, and
      makes a fresh key find exactly the appended row. */
  lemma {:induction false} FindByKeyAppend<T>(s: seq<T>, key: T -> string, x: T, k: string)
    ensures FindByKey(s + [x], key, k) ==
      if HasKey(s, key, k) then FindByKey(s, key, k)
      else if key(x) == k then Some(x) else None
  {
    if s != [] {
      assert (s + [x])[1..] == s[1..] + [x];
      FindByKeyAppend(s[1..], key, x, k);
      if key(s[0]) != k && HasKey(s, key, k) {
        var i :| 0 <= i < |s| && key(s[i]) == k;
        assert key(s[1..][i - 1]) == k;
      }
    }
  }

  /** With unique keys, the row found for a key is the only row with that key. */
  lemma FindByKeyUnique<T>(s: seq<T>, key: T -> string, i: nat)
    requires DistinctKeys(s, key) && i < |s|
    ensures FindByKey(s, key, key(s[i])) == Some(s[i])
  {
    var r := FindByKey(s, key, key(s[i]));
    assert HasKey(s, key, key(s[i]));
    var j :| 0 <= j < |s| && s[j] == r.value;
  }

  function Reverse<T>(s: seq<T>): (r: seq<T>)
    ensures |r| == |s|
    ensures forall i :: 0 <= i < |s| ==> r[i] == s[|s| - 1 - i]
  {
    if s == [] then [] else Reverse(s[1..]) + [s[0]]
  }

  /** `LIMIT limit OFFSET offset`. */
  function Page<T>(s: seq<T>, limit: nat, offset: nat): (r: seq<T>)
    ensures |r| == if offset >= |s| then 0 else if |s| - offset < limit then |s| - offset else limit
    ensures forall i :: 0 <= i < |r| ==> r[i] == s[offset + i]
  {
    if offset >= |s| then []
    else if |s| - offset < limit then s[offset..]
    else s[offset..offset + limit]
  }

  /** Active certificates of a user, in insertion order. */
  function ActiveOfUser(s: seq<Certificate>, userId: string): (r: seq<Certificate>)
    ensures |r| <= |s|
    ensures forall c :: c in r <==> c in s && c.userId == userId && c.isActive
  {
    if s == [] then []
    else (if s[0].userId == userId && s[0].isActive then [s[0]] else []) + ActiveOfUser(s[1..], userId)
  }

  /** Active certificates whose `batch_id` is the given one, in insertion order. */
  function ActiveOfBatch(s: seq<Certificate>, batchId: string): (r: seq<Certificate>)
    ensures |r| <= |s|
  {
    if s == [] then []
    else (if s[0].batchId == batchId && s[0].isActive then [s[0]] else []) + ActiveOfBatch(s[1..], batchId)
  }

  /** A certificate is listed for a batch exactly when it is in the table,
      carries that batch id and is active. */
  lemma {:induction false} ActiveOfBatchMembers(s: seq<Certificate>, batchId: string)
    ensures forall c :: c in ActiveOfBatch(s, batchId) <==> c in s && c.batchId == batchId && c.isActive
  {
    if s != [] {
      ActiveOfBatchMembers(s[1..], batchId);
      assert s == [s[0]] + s[1..];
    }
  }

  /** Filtering a table by batch distributes over appending rows. */
  lemma {:induction false} ActiveOfBatchAppend(a: seq<Certificate>, b: seq<Certificate>, batchId: string)
    ensures ActiveOfBatch(a + b, batchId) == ActiveOfBatch(a, batchId) + ActiveOfBatch(b, batchId)
  {
    if a != [] {
      assert (a + b)[0] == a[0];
      assert (a + b)[1..] == a[1..] + b;
      ActiveOfBatchAppend(a[1..], b, batchId);
      var head := if a[0].batchId == batchId && a[0].isActive then [a[0]] else [];
      assert ActiveOfBatch(a + b, batchId) == head + ActiveOfBatch(a[1..] + b, batchId);
      assert ActiveOfBatch(a, batchId) == head + ActiveOfBatch(a[1..], batchId);
      assert head + (ActiveOfBatch(a[1..], batchId) + ActiveOfBatch(b, batchId))
          == (head + ActiveOfBatch(a[1..], batchId)) + ActiveOfBatch(b, batchId);
    } else {
      assert a + b == b;
    }
  }

  function TemplatesOfUser(s: seq<Template>, userId: string): (r: seq<Template>)
    ensures |r| <= |s|
    ensures forall t :: t in r <==> t in s && t.userId == userId
  {
    if s == [] then []
    else (if s[0].userId == userId then [s[0]] else []) + TemplatesOfUser(s[1..], userId)
  }

  function BatchesOfUser(s: seq<Batch>, userId: string): (r: seq<Batch>)
    ensures |r| <= |s|
    ensures forall b :: b in r <==> b in s && b.userId == userId
  {
    if s == [] then []
    else (if s[0].userId == userId then [s[0]] else []) + BatchesOfUser(s[1..], userId)
  }

  function ActiveDefaults(s: seq<DefaultTemplate>): (r: seq<DefaultTemplate>)
    ensures |r| <= |s|
    ensures forall d :: d in r <==> d in s && d.isActive
  {
    if s == [] then []
    else (if s[0].isActive then [s[0]] else []) + ActiveDefaults(s[1..])
  }

  /** Code-point lexicographic order on strings; it stands in for the
      collation of `ORDER BY name`. */
  predicate LexLeq(a: string, b: string) {
    a == [] || (b != [] && (a[0] < b[0] || (a[0] == b[0] && LexLeq(a[1..], b[1..]))))
  }

  lemma {:induction false} LexLeqTotal(a: string, b: string)
    ensures LexLeq(a, b) || LexLeq(b, a)
  {
    if a != [] && b != [] && a[0] == b[0] {
      LexLeqTotal(a[1..], b[1..]);
    }
  }

  ghost predicate SortedByName(s: seq<DefaultTemplate>) {
    forall i :: 0 <= i < |s| - 1 ==> LexLeq(s[i].name, s[i + 1].name)
  }

  function InsertByName(x: DefaultTemplate, s: seq<DefaultTemplate>): (r: seq<DefaultTemplate>)
    requires SortedByName(s)
    ensures SortedByName(r)
    ensures multiset(r) == multiset(s) + multiset{x}
    ensures r[0] == x || (s != [] && r[0] == s[0])
  {
    if s == [] then [x]
    else if LexLeq(x.name, s[0].name) then
      SortedCons(x, s);
      [x] + s
    else
      LexLeqTotal(x.name, s[0].name);
      SortedTail(s);
      var rest := InsertByName(x, s[1..]);
      SortedCons(s[0], rest);
      assert s == [s[0]] + s[1..];
      [s[0]] + rest
  }

  lemma SortedTail(s: seq<DefaultTemplate>)
    requires SortedByName(s) && s != []
    ensures SortedByName(s[1..])
  {
    var t := s[1..];
    forall i | 0 <= i < |t| - 1 ensures LexLeq(t[i].name, t[i + 1].name) {
      assert t[i] == s[i + 1] && t[i + 1] == s[i + 2];
    }
  }

  lemma SortedCons(a: DefaultTemplate, s: seq<DefaultTemplate>)
    requires SortedByName(s) && (s == [] || LexLeq(a.name, s[0].name))
    ensures SortedByName([a] + s)
  {
    var r := [a] + s;
    forall i | 0 <= i < |r| - 1 ensures LexLeq(r[i].name, r[i + 1].name) {
      if i > 0 {
        assert r[i] == s[i - 1] && r[i + 1] == s[i];
      }
    }
  }

  /** The rows ordered by name (insertion sort, stable). */
  function SortByName(s: seq<DefaultTemplate>): (r: seq<DefaultTemplate>)
    ensures SortedByName(r)
    ensures multiset(r) == multiset(s)
  {
    if s == [] then []
    else
      assert s == [s[0]] + s[1..];
      InsertByName(s[0], SortByName(s[1..]))
  }

  /** The LEFT JOIN of a template with its default template. */
  function JoinDefault(t: Template, defaults: seq<DefaultTemplate>): (r: TemplateRow)
    ensures r.template == t
    ensures r.defaultTemplateName.Some? <==>
      t.defaultTemplateId.Some? && HasKey(defaults, DefaultTemplateKey, t.defaultTemplateId.value)
    ensures r.defaultTemplateName.Some? <==> r.defaultBaseImagePath.Some?
  {
    var d := if t.defaultTemplateId.Some? then FindByKey(defaults, DefaultTemplateKey, t.defaultTemplateId.value) else None;
    match d
    case Some(dt) => TemplateRow(t, Some(dt.name), Some(dt.baseImagePath))
    case None => TemplateRow(t, None, None)
  }

  /** Each template joined with its default template, in order. */
  function JoinAll(own: seq<Template>, defaults: seq<DefaultTemplate>): (r: seq<TemplateRow>)
    ensures |r| == |own|
    ensures forall i :: 0 <= i < |r| ==> r[i] == JoinDefault(own[i], defaults)
  {
    seq(|own|, i requires 0 <= i < |own| => JoinDefault(own[i], defaults))
  }

  /** Rows joined from the reversed templates list every one of them. */
  lemma ReversedJoinCovers(r: seq<TemplateRow>, own: seq<Template>)
    requires |r| == |own| && forall i :: 0 <= i < |r| ==> r[i].template == own[|r| - 1 - i]
    ensures forall t :: t in own ==> exists i :: 0 <= i < |r| && r[i].template == t
  {
    forall t | t in own ensures exists i :: 0 <= i < |r| && r[i].template == t {
      var j :| 0 <= j < |own| && own[j] == t;
      assert r[|r| - 1 - j].template == t;
    }
  }

  function WithCount(u: User, userId: string, count: int): (r: User)
    ensures r.id == u.id
    ensures r == if u.id == userId then u.(certificateCount := u.certificateCount + count) else u
  {
    if u.id == userId then u.(certificateCount := u.certificateCount + count) else u
  }

  /** The row after `updateStatus`: status and file path set, falsy paths
      stored as null, `completed_at` stamped only for 'completed'. */
  function WithStatus(b: Batch, status: BatchStatus, filePath: Option<string>, now: int): (r: Batch)
    ensures r.id == b.id && r.userId == b.userId && r.eventName == b.eventName
    ensures r.participantCount == b.participantCount && r.createdAt == b.createdAt
    ensures r.status == status
    ensures r.filePath == (if Truthy(filePath) then filePath else None)
    ensures r.completedAt == (if status == Completed then Some(now) else b.completedAt)
  {
    b.(status := status,
       filePath := if Truthy(filePath) then filePath else None,
       completedAt := if status == Completed then Some(now) else b.completedAt)
  }

  class Database {
    var users: seq<User>
    var defaultTemplates: seq<DefaultTemplate>
    var templates: seq<Template>
    var certificates: seq<Certificate>
    var batches: seq<Batch>

    /** Every table's primary key is unique. */
    ghost predicate Valid()
      reads this
    {
      && DistinctKeys(users, UserKey)
      && DistinctKeys(defaultTemplates, DefaultTemplateKey)
      && DistinctKeys(templates, TemplateKey)
      && DistinctKeys(certificates, CertificateKey)
      && DistinctKeys(batches, BatchKey)
    }

    constructor ()
      ensures Valid()
      ensures users == [] && defaultTemplates == [] && templates == []
      ensures certificates == [] && batches == []
    {
      users, defaultTemplates, templates, certificates, batches := [], [], [], [], [];
    }

    // ---------------------------------------------------------------- UserQueries

    /** `UserQueries.create`: a new account with a zero counter, not premium. */
    method CreateUser(id: string, email: string, passwordHash: string, organizationName: string, now: int)
      returns (r: Result<User>)
      requires Valid()
      modifies this`users
      ensures Valid()
      ensures r.Success? <==> !HasKey(old(users), UserKey, id)
      ensures r.Success? ==> r.value == User(id, email, passwordHash, organizationName, 0, false, now, None)
      ensures r.Success? ==> users == old(users) + [r.value]
      ensures r.Failure? ==> r.error == DUPLICATE_KEY && users == old(users)
    {
      if HasKey(users, UserKey, id) {
        return Failure(DUPLICATE_KEY);
      }
      var u := User(id, email, passwordHash, organizationName, 0, false, now, None);
      users := users + [u];
      r := Success(u);
    }

    function FindUserByEmail(email: string): (r: Option<User>)
      reads this
      ensures r.Some? ==> r.value in users && r.value.email == email
      ensures r.None? ==> forall u :: u in users ==> u.email != email
    {
      FindEmail(users, email)
    }

    function FindUserById(id: string): (r: Option<User>)
      reads this
      ensures r.Some? ==> r.value in users && r.value.id == id
      ensures r.None? <==> !HasKey(users, UserKey, id)
    {
      FindByKey(users, UserKey, id)
    }

    /** `UserQueries.updateCertificateCount`: adds `count` to that user's
        counter and changes nothing else. */
    method UpdateCertificateCount(userId: string, count: int)
      requires Valid()
      modifies this`users
      ensures Valid()
      ensures |users| == |old(users)|
      ensures forall i :: 0 <= i < |users| ==> users[i] == WithCount(old(users)[i], userId, count)
    {
      var rows := users;
      users := seq(|rows|, i requires 0 <= i < |rows| => WithCount(rows[i], userId, count));
      assert forall i :: 0 <= i < |users| ==> UserKey(users[i]) == UserKey(rows[i]);
    }

    method UpdateLastLogin(userId: string, now: int)
      requires Valid()
      modifies this`users
      ensures Valid()
      ensures |users| == |old(users)|
      ensures forall i :: 0 <= i < |users| ==>
        users[i] == if old(users)[i].id == userId then old(users)[i].(lastLogin := Some(now)) else old(users)[i]
    {
      var rows := users;
      users := seq(|rows|, i requires 0 <= i < |rows| =>
        if rows[i].id == userId then rows[i].(lastLogin := Some(now)) else rows[i]);
      assert forall i :: 0 <= i < |users| ==> UserKey(users[i]) == UserKey(rows[i]);
    }

    // ---------------------------------------------------- DefaultTemplateQueries

    /** `DefaultTemplateQueries.findAll`: active rows ordered by name. */
    function AllDefaultTemplates(): (r: seq<DefaultTemplate>)
      reads this
      ensures forall d :: d in r <==> d in defaultTemplates && d.isActive
      ensures SortedByName(r)
    {
      var active := ActiveDefaults(defaultTemplates);
      var r := SortByName(active);
      assert forall d :: d in r <==> d in multiset(r);
      r
    }

    /** `DefaultTemplateQueries.findById`: only an active row is found. */
    function FindDefaultTemplateById(id: string): (r: Option<DefaultTemplate>)
      reads this
      requires Valid()
      ensures r.Some? ==> r.value in defaultTemplates && r.value.id == id && r.value.isActive
      ensures r.None? ==> forall i :: 0 <= i < |defaultTemplates| && defaultTemplates[i].id == id ==>
                            !defaultTemplates[i].isActive
    {
      match FindByKey(defaultTemplates, DefaultTemplateKey, id)
      case Some(d) =>
        if d.isActive then Some(d)
        else
          assert forall i :: 0 <= i < |defaultTemplates| && defaultTemplates[i].id == id ==>
                   defaultTemplates[i] == d by {
            forall i | 0 <= i < |defaultTemplates| && defaultTemplates[i].id == id {
              FindByKeyUnique(defaultTemplates, DefaultTemplateKey, i);
            }
          }
          None
      case None => None
    }

    /** Whether any row, active or not, carries this name (the check the seeder runs). */
    function HasDefaultTemplateNamed(name: string): (b: bool)
      reads this
      ensures b <==> exists i :: 0 <= i < |defaultTemplates| && defaultTemplates[i].name == name
    {
      HasKey(defaultTemplates, DefaultTemplateName, name)
    }

    /** `DefaultTemplateQueries.create`: a falsy font size, font colour or
        primary colour is replaced by 48, '#000000' and '#2563eb'. */
    method CreateDefaultTemplate(id: string, input: DefaultTemplateInput) returns (r: Result<DefaultTemplate>)
      requires Valid()
      modifies this`defaultTemplates
      ensures Valid()
      ensures r.Success? <==> !HasKey(old(defaultTemplates), DefaultTemplateKey, id)
      ensures r.Success? ==> defaultTemplates == old(defaultTemplates) + [r.value]
      ensures r.Success? ==> r.value == DefaultTemplateRecord(id, input)
      ensures r.Failure? ==> r.error == DUPLICATE_KEY && defaultTemplates == old(defaultTemplates)
    {
      if HasKey(defaultTemplates, DefaultTemplateKey, id) {
        return Failure(DUPLICATE_KEY);
      }
      var d := DefaultTemplateRecord(id, input);
      defaultTemplates := defaultTemplates + [d];
      r := Success(d);
    }

    // ----------------------------------------------------------- TemplateQueries

    /** `TemplateQueries.create`: stores the given fields as they are. */
    method CreateTemplate(id: string, input: TemplateInput, now: int) returns (r: Result<Template>)
      requires Valid()
      modifies this`templates
      ensures Valid()
      ensures r.Success? <==> !HasKey(old(templates), TemplateKey, id)
      ensures r.Success? ==> templates == old(templates) + [r.value]
      ensures r.Success? ==> r.value.id == id && r.value.createdAt == now && Stores(r.value, input)
      ensures r.Failure? ==> r.error == DUPLICATE_KEY && templates == old(templates)
    {
      if HasKey(templates, TemplateKey, id) {
        return Failure(DUPLICATE_KEY);
      }
      var t := Template(id, input.userId, input.templateType, input.defaultTemplateId,
        input.customImagePath, input.logoPath, input.primaryColor, input.textX, input.textY,
        input.fontSize, input.fontColor, input.fontFamily, now);
      templates := templates + [t];
      r := Success(t);
    }

    /** `TemplateQueries.findById` with its LEFT JOIN. */
    function FindTemplateById(id: string): (r: Option<TemplateRow>)
      reads this
      ensures r.Some? ==> r.value.template in templates && r.value.template.id == id
      ensures r.None? <==> !HasKey(templates, TemplateKey, id)
    {
      match FindByKey(templates, TemplateKey, id)
      case Some(t) => Some(JoinDefault(t, defaultTemplates))
      case None => None
    }

    /** `TemplateQueries.findByUserId`: the user's templates, newest first. */
    function TemplatesByUserId(userId: string): (r: seq<TemplateRow>)
      reads this
      ensures |r| == |TemplatesOfUser(templates, userId)|
      ensures forall i :: 0 <= i < |r| ==> r[i].template in templates && r[i].template.userId == userId
      ensures forall t :: t in templates && t.userId == userId ==> exists i :: 0 <= i < |r| && r[i].template == t
      ensures forall i :: 0 <= i < |r| ==>
        r[i] == JoinDefault(TemplatesOfUser(templates, userId)[|r| - 1 - i], defaultTemplates)
    {
      var mine := TemplatesOfUser(templates, userId);
      var r := JoinAll(Reverse(mine), defaultTemplates);
      ReversedJoinCovers(r, mine);
      r
    }

    // -------------------------------------------------------- CertificateQueries

    /** `CertificateQueries.create`: stores user, participant, event and batch
        exactly as given, active, stamped with the clock. */
    method CreateCertificate(id: string, userId: string, participantName: string, eventName: string,
                             batchId: string, now: int) returns (r: Result<Certificate>)
      requires Valid()
      modifies this`certificates
      ensures Valid()
      ensures r.Success? <==> !HasKey(old(certificates), CertificateKey, id)
      ensures r.Success? ==> r.value == Certificate(id, userId, participantName, eventName, batchId, true, now)
      ensures r.Success? ==> certificates == old(certificates) + [r.value]
      ensures r.Failure? ==> r.error == DUPLICATE_KEY && certificates == old(certificates)
    {
      if HasKey(certificates, CertificateKey, id) {
        return Failure(DUPLICATE_KEY);
      }
      var c := Certificate(id, userId, participantName, eventName, batchId, true, now);
      certificates := certificates + [c];
      r := Success(c);
    }

    /** `CertificateQueries.findById`: an active certificate joined with its
        owner's organisation; revoked or ownerless rows are not found. */
    function FindCertificateById(id: string): (r: Option<CertificateWithUser>)
      reads this
      ensures r.Some? ==> r.value.certificate in certificates && r.value.certificate.id == id
      ensures r.Some? ==> r.value.certificate.isActive
      ensures r.Some? ==> exists u :: u in users && u.id == r.value.certificate.userId
                                        && u.organizationName == r.value.organizationName
      ensures !HasKey(certificates, CertificateKey, id) ==> r.None?
      ensures (Valid() && exists c, u :: c in certificates && c.id == id && c.isActive && u in users && u.id == c.userId)
                ==> r.Some?
    {
      FoundWhenActiveAndOwned(id);
      match FindByKey(certificates, CertificateKey, id)
      case None => None
      case Some(c) =>
        if !c.isActive then None
        else match FindByKey(users, UserKey, c.userId)
          case None => None
          case Some(u) => Some(CertificateWithUser(c, u.organizationName))
    }

    /** With distinct keys, the row with that id decides the lookup. */
    lemma FoundWhenActiveAndOwned(id: string)
      ensures (Valid() && exists c, u :: c in certificates && c.id == id && c.isActive && u in users && u.id == c.userId)
                ==>
        && FindByKey(certificates, CertificateKey, id).Some?
        && FindByKey(certificates, CertificateKey, id).value.isActive
        && FindByKey(users, UserKey, FindByKey(certificates, CertificateKey, id).value.userId).Some?
    {
      if Valid() && exists c, u :: c in certificates && c.id == id && c.isActive && u in users && u.id == c.userId {
        var c, u :| c in certificates && c.id == id && c.isActive && u in users && u.id == c.userId;
        var i :| 0 <= i < |certificates| && certificates[i] == c;
        FindByKeyUnique(certificates, CertificateKey, i);
        var j :| 0 <= j < |users| && users[j] == u;
        assert HasKey(users, UserKey, c.userId);
      }
    }

    /** `CertificateQueries.findByUserId`: active certificates, newest first, paged. */
    function CertificatesByUserId(userId: string, limit: nat, offset: nat): (r: seq<Certificate>)
      reads this
      ensures |r| <= limit
      ensures forall c :: c in r ==> c in certificates && c.userId == userId && c.isActive
    {
      var own := Reverse(ActiveOfUser(certificates, userId));
      var r := Page(own, limit, offset);
      assert forall i :: 0 <= i < |r| ==> r[i] in own;
      r
    }

    /** `CertificateQueries.findByBatchId`: active certificates carrying that batch id. */
    function CertificatesByBatchId(batchId: string): (r: seq<Certificate>)
      reads this
      ensures forall c :: c in r <==> c in certificates && c.batchId == batchId && c.isActive
    {
      ActiveOfBatchMembers(certificates, batchId);
      ActiveOfBatch(certificates, batchId)
    }

    // ---------------------------------------------------- GenerationBatchQueries

    /** `GenerationBatchQueries.create`: status defaults to 'processing'. */
    method CreateBatch(id: string, userId: string, eventName: string, participantCount: int,
                       status: Option<BatchStatus>, now: int) returns (r: Result<Batch>)
      requires Valid()
      modifies this`batches
      ensures Valid()
      ensures r.Success? <==> !HasKey(old(batches), BatchKey, id)
      ensures r.Success? ==> r.value == Batch(id, userId, eventName, participantCount,
                                              status.GetOr(Processing), None, now, None)
      ensures r.Success? ==> batches == old(batches) + [r.value]
      ensures r.Failure? ==> r.error == DUPLICATE_KEY && batches == old(batches)
    {
      if HasKey(batches, BatchKey, id) {
        return Failure(DUPLICATE_KEY);
      }
      var b := Batch(id, userId, eventName, participantCount, status.GetOr(Processing), None, now, None);
      batches := batches + [b];
      r := Success(b);
    }

    /** `GenerationBatchQueries.updateStatus`: no guard on the current status;
        every row with that id is rewritten by `WithStatus`. */
    method UpdateBatchStatus(id: string, status: BatchStatus, filePath: Option<string>, now: int)
      returns (r: Option<Batch>)
      requires Valid()
      modifies this`batches
      ensures Valid()
      ensures |batches| == |old(batches)|
      ensures forall i :: 0 <= i < |batches| ==>
        batches[i] == if old(batches)[i].id == id then WithStatus(old(batches)[i], status, filePath, now)
                      else old(batches)[i]
      ensures r == FindByKey(batches, BatchKey, id)
    {
      var rows := batches;
      batches := seq(|rows|, i requires 0 <= i < |rows| =>
        if rows[i].id == id then WithStatus(rows[i], status, filePath, now) else rows[i]);
      assert forall i :: 0 <= i < |batches| ==> BatchKey(batches[i]) == BatchKey(rows[i]);
      r := FindByKey(batches, BatchKey, id);
    }

    function FindBatchById(id: string): (r: Option<Batch>)
      reads this
      ensures r.Some? ==> r.value in batches && r.value.id == id
      ensures r.None? <==> !HasKey(batches, BatchKey, id)
    {
      FindByKey(batches, BatchKey, id)
    }

    /** `GenerationBatchQueries.findByUserId`: the user's batches, newest first. */
    function BatchesByUserId(userId: string): (r: seq<Batch>)
      reads this
      ensures forall b :: b in r <==> b in batches && b.userId == userId
    {
      var own := BatchesOfUser(batches, userId);
      var r := Reverse(own);
      assert forall b :: b in r <==> b in own by {
        forall b | b in own ensures b in r {
          var i :| 0 <= i < |own| && own[i] == b;
          assert r[|own| - 1 - i] == b;
        }
      }
      r
    }
  }

  function FindEmail(s: seq<User>, email: string): (r: Option<User>)
    ensures r.Some? ==> r.value in s && r.value.email == email
    ensures r.None? ==> forall u :: u in s ==> u.email != email
  {
    if s == [] then None
    else if s[0].email == email then Some(s[0])
    else FindEmail(s[1..], email)
  }

  /** The row `DefaultTemplateQueries.create` inserts, with its `||` defaults. */
  function DefaultTemplateRecord(id: string, input: DefaultTemplateInput): (d: DefaultTemplate)
    ensures d.id == id && d.name == input.name && d.isActive
    ensures d.previewImagePath == input.previewImagePath && d.baseImagePath == input.baseImagePath
    ensures d.defaultTextX == input.defaultTextX && d.defaultTextY == input.defaultTextY
    ensures d.defaultFontSize ==
      (if input.defaultFontSize.Some? && input.defaultFontSize.value != 0 then input.defaultFontSize.value
       else DEFAULT_FONT_SIZE)
    ensures d.defaultFontColor == OrElse(input.defaultFontColor, DEFAULT_FONT_COLOR)
    ensures d.defaultPrimaryColor == OrElse(input.defaultPrimaryColor, DEFAULT_PRIMARY_COLOR)
  {
    DefaultTemplate(id, input.name, input.previewImagePath, input.baseImagePath,
      input.defaultTextX, input.defaultTextY,
      if input.defaultFontSize.Some? && input.defaultFontSize.value != 0 then input.defaultFontSize.value
      else DEFAULT_FONT_SIZE,
      OrElse(input.defaultFontColor, DEFAULT_FONT_COLOR),
      OrElse(input.defaultPrimaryColor, DEFAULT_PRIMARY_COLOR),
      true)
  }

  /** A stored template carries exactly the fields of the insert. */
  predicate Stores(t: Template, input: TemplateInput) {
    && t.userId == input.userId && t.templateType == input.templateType
    && t.defaultTemplateId == input.defaultTemplateId && t.customImagePath == input.customImagePath
    && t.logoPath == input.logoPath && t.primaryColor == input.primaryColor
    && t.textX == input.textX && t.textY == input.textY && t.fontSize == input.fontSize
    && t.fontColor == input.fontColor && t.fontFamily == input.fontFamily
  }
}
