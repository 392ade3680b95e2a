/** POST /api/auth/signup, pure parts: the `signupSchema` validation with its
    password refinement, and the operations on the auth service's user list
    and on the organizations table that the handler composes
    (`Database.Signup` in module Db). */
module Signup {

  import opened Common
  import opened Seqs
  import opened Tables

  datatype SignupFields = SignupFields(
    fullName: JVal,
    email: JVal,
    password: JVal,
    confirmPassword: JVal,
    organizationName: JVal,
    organizationSubdomain: JVal)

  datatype SignupInput = SignupInput(
    fullName: string,
    email: string,
    password: string,
    organizationName: string,
    organizationSubdomain: string)

  /** The keys of the body, as the `path` of a validation issue. */
  datatype SignupField = FullName | Email | Password | ConfirmPassword | OrganizationName | OrganizationSubdomain

  const MinPasswordLength := 6

  function Value(f: SignupFields, k: SignupField): JVal {
    match k
    case FullName => f.fullName
    case Email => f.email
    case Password => f.password
    case ConfirmPassword => f.confirmPassword
    case OrganizationName => f.organizationName
    case OrganizationSubdomain => f.organizationSubdomain
  }

  /** Every key holds a string: no issue aborted the object parse, so the
      refinement runs. */
  predicate AllStrings(f: SignupFields) {
    && f.fullName.JStr? && f.email.JStr? && f.password.JStr? && f.confirmPassword.JStr?
    && f.organizationName.JStr? && f.organizationSubdomain.JStr?
  }

  /** The per-field checks; the email check is zod's and enters as `isEmail`. */
  predicate FieldValid(f: SignupFields, k: SignupField, isEmail: string -> bool) {
    var v := Value(f, k);
    v.JStr? &&
    match k
    case Email => isEmail(v.str)
    case Password => Utf16Length(v.str) >= MinPasswordLength
    case ConfirmPassword => true
    case _ => |v.str| >= 1
  }

  predicate PasswordsDiffer(f: SignupFields) {
    AllStrings(f) && f.password.str != f.confirmPassword.str
  }

  function Check(f: SignupFields, k: SignupField, isEmail: string -> bool): seq<SignupField> {
    if FieldValid(f, k, isEmail) then [] else [k]
  }

  /** The issues of `signupSchema.parse`: the field checks in declaration
      order, then the refinement's "Passwords don't match" on confirmPassword. */
  function SignupIssues(f: SignupFields, isEmail: string -> bool): (issues: seq<SignupField>)
    ensures forall k :: k != ConfirmPassword ==> (k in issues <==> !FieldValid(f, k, isEmail))
    ensures ConfirmPassword in issues <==> !f.confirmPassword.JStr? || PasswordsDiffer(f)
  {
    var head := Check(f, FullName, isEmail) + Check(f, Email, isEmail) + Check(f, Password, isEmail);
    var tail := Check(f, ConfirmPassword, isEmail) + Check(f, OrganizationName, isEmail)
                + Check(f, OrganizationSubdomain, isEmail);
    var refinement := if PasswordsDiffer(f) then [ConfirmPassword] else [];
    assert forall k :: k in head <==> k in {FullName, Email, Password} && !FieldValid(f, k, isEmail);
    assert forall k :: k in tail <==> k in {ConfirmPassword, OrganizationName, OrganizationSubdomain}
                                      && !FieldValid(f, k, isEmail);
    var issues := head + tail + refinement;
    issues
  }

  /** `signupSchema.parse(body)` */
  function ValidateSignup(f: SignupFields, isEmail: string -> bool): (r: Result<SignupInput, seq<SignupField>>)
    ensures r.Ok? <==> (forall k :: FieldValid(f, k, isEmail)) && !PasswordsDiffer(f)
    ensures r.Err? ==> r.error == SignupIssues(f, isEmail)
    ensures r.Ok? ==> AllStrings(f)
    ensures r.Ok? ==> (
      && AllStrings(f)
      && r.value.fullName == f.fullName.str && r.value.email == f.email.str
      && r.value.password == f.password.str && r.value.password == f.confirmPassword.str
      && r.value.organizationName == f.organizationName.str
      && r.value.organizationSubdomain == f.organizationSubdomain.str
      && isEmail(r.value.email) && Utf16Length(r.value.password) >= MinPasswordLength
      && |r.value.fullName| >= 1 && |r.value.organizationName| >= 1 && |r.value.organizationSubdomain| >= 1)
  {
    var issues := SignupIssues(f, isEmail);
    if issues != [] then
      assert issues[0] in issues;
      Err(issues)
    else
      assert forall k :: FieldValid(f, k, isEmail) by {
        forall k ensures FieldValid(f, k, isEmail) { assert k !in issues; }
      }
      assert FieldValid(f, Email, isEmail) && FieldValid(f, Password, isEmail) && FieldValid(f, FullName, isEmail);
      assert FieldValid(f, OrganizationName, isEmail) && FieldValid(f, OrganizationSubdomain, isEmail);
      assert FieldValid(f, ConfirmPassword, isEmail);
      Ok(SignupInput(f.fullName.str, f.email.str, f.password.str, f.organizationName.str, f.organizationSubdomain.str))
  }

  /** The password's minimum length counts UTF-16 code units: three emoji
      make a long enough password, one character too short. */
  lemma AstralPasswordLength(f: SignupFields, isEmail: string -> bool)
    requires f.password == JStr("\U{1F600}\U{1F600}\U{1F600}")
    ensures FieldValid(f, Password, isEmail)
    ensures !FieldValid(f.(password := JStr("\U{1F600}\U{1F600}x")), Password, isEmail)
  {
    var e := "\U{1F600}\U{1F600}\U{1F600}";
    assert e[1..][1..][1..] == [];
    var t := "\U{1F600}\U{1F600}x";
    assert t[1..][1..][1..] == [];
  }

  /** Mismatched passwords are reported on confirmPassword only when every
      field is a string; a body with a field of the wrong type is rejected
      without the refinement's issue. */
  lemma MismatchReported(f: SignupFields, isEmail: string -> bool)
    requires f.password.JStr? && f.confirmPassword.JStr? && f.password.str != f.confirmPassword.str
    ensures ValidateSignup(f, isEmail).Err?
    ensures AllStrings(f) ==> ConfirmPassword in ValidateSignup(f, isEmail).error
    ensures !AllStrings(f) ==> ConfirmPassword !in ValidateSignup(f, isEmail).error
  {
  }

  /** `await req.json()` then `signupSchema.parse(body)`. */
  function ParseSignupBody(body: RequestBody<SignupFields>, isEmail: string -> bool): (r: Result<SignupInput, int>)
    ensures body.Unparseable? <==> r == Err(500)
    ensures r.Ok? <==> body.Object? && ValidateSignup(body.fields, isEmail).Ok?
    ensures r.Ok? ==> r.value == ValidateSignup(body.fields, isEmail).value
  {
    match body
    case Unparseable => Err(500)
    case NotAnObject => Err(400)
    case Object(f) => if ValidateSignup(f, isEmail).Ok? then Ok(ValidateSignup(f, isEmail).value) else Err(400)
  }

  /** The `user` object of a successful signup. */
  datatype SignupUser = SignupUser(id: Uuid, email: string, full_name: string, organization_id: Uuid, role: string)

  /** `.eq('subdomain', s).single()` returned a row: exactly one organization
      has the subdomain. A failed query or several matches count as free. */
  predicate SubdomainTaken(orgs: seq<Organization>, sub: string, failing: set<Call>) {
    Single(Filter((o: Organization) => o.subdomain == Some(sub), orgs), SubdomainQuery in failing).Found?
  }

  /** `users.find(user => user.email === email)` */
  function FindByEmail(users: seq<AuthUser>, email: string): (r: Option<AuthUser>)
    ensures r.None? <==> forall i :: 0 <= i < |users| ==> users[i].email != email
    ensures r.Some? ==> exists i :: 0 <= i < |users| && users[i] == r.value
                          && users[i].email == email
                          && forall j :: 0 <= j < i ==> users[j].email != email
  {
    if users == [] then None
    else if users[0].email == email then Some(users[0])
    else
      var r := FindByEmail(users[1..], email);
      assert forall i :: 1 <= i < |users| ==> users[i] == users[1..][i - 1];
      if r.Some? then
        var i :| 0 <= i < |users[1..]| && users[1..][i] == r.value && users[1..][i].email == email
                 && forall j :: 0 <= j < i ==> users[1..][j].email != email;
        assert users[i + 1] == r.value;
        r
      else r
  }

  /** The account the signup continues with: the first one registered under
      the email, or else the one it creates. */
  function AccountId(users: seq<AuthUser>, email: string, newUserId: Uuid): (id: Uuid)
    ensures FindByEmail(users, email).Some? ==> id == FindByEmail(users, email).value.id
    ensures FindByEmail(users, email).None? ==> id == newUserId
  {
    if FindByEmail(users, email).Some? then FindByEmail(users, email).value.id else newUserId
  }

  /** The user list once that account exists: unchanged for a reused
      account, else with the new, confirmed account carrying the full name. */
  function UsersWithAccount(users: seq<AuthUser>, input: SignupInput, newUserId: Uuid): (r: seq<AuthUser>)
    ensures exists i :: 0 <= i < |r| && r[i].id == AccountId(users, input.email, newUserId)
    ensures forall u :: u in users ==> u in r
    ensures FindByEmail(users, input.email).Some? ==> r == users
    ensures FindByEmail(users, input.email).None? ==>
              r == users + [AuthUser(newUserId, input.email, Some(input.fullName), None)]
  {
    if FindByEmail(users, input.email).Some? then users
    else
      var r := users + [AuthUser(newUserId, input.email, Some(input.fullName), None)];
      assert r[|users|].id == newUserId;
      r
  }

  function UserIds(users: seq<AuthUser>): set<Uuid> {
    set u | u in users :: u.id
  }

  /** `auth.admin.deleteUser(id)` */
  function RemoveUser(users: seq<AuthUser>, id: Uuid): (r: seq<AuthUser>)
    ensures forall u :: u in r <==> u in users && u.id != id
    ensures id !in UserIds(r)
  {
    if users == [] then []
    else (if users[0].id == id then [] else [users[0]]) + RemoveUser(users[1..], id)
  }

  /** `auth.admin.updateUserById(id, { user_metadata: { organization_id } })`:
      the account keeps its other metadata. */
  function SetUserOrganization(users: seq<AuthUser>, id: Uuid, org: Uuid): (r: seq<AuthUser>)
    ensures |r| == |users|
    ensures forall i :: 0 <= i < |users| ==>
              r[i] == if users[i].id == id then users[i].(organizationId := Some(org)) else users[i]
  {
    if users == [] then []
    else [if users[0].id == id then users[0].(organizationId := Some(org)) else users[0]]
         + SetUserOrganization(users[1..], id, org)
  }

  /** `.from('organizations').delete().eq('id', id)` */
  function RemoveOrganization(orgs: seq<Organization>, id: Uuid): (r: seq<Organization>)
    ensures forall o :: o in r <==> o in orgs && o.id != id
  {
    if orgs == [] then []
    else (if orgs[0].id == id then [] else [orgs[0]]) + RemoveOrganization(orgs[1..], id)
  }

  function OrgIds(orgs: seq<Organization>): set<Uuid> {
    set o | o in orgs :: o.id
  }

  /** Deleting an account that was just appended under a fresh id restores
      the user list exactly. */
  lemma {:induction false} RemoveFreshUser(users: seq<AuthUser>, u: AuthUser)
    requires u.id !in UserIds(users)
    ensures RemoveUser(users + [u], u.id) == users
  {
    if users == [] {
      assert [u][1..] == [];
    } else {
      assert (users + [u])[1..] == users[1..] + [u];
      assert users[0] in users;
      RemoveFreshUser(users[1..], u);
      assert users == [users[0]] + users[1..];
    }
  }

  /** Deleting an account undoes an earlier metadata update of it. */
  lemma {:induction false} RemoveAfterSetOrganization(users: seq<AuthUser>, id: Uuid, org: Uuid)
    ensures RemoveUser(SetUserOrganization(users, id, org), id) == RemoveUser(users, id)
  {
    if users != [] {
      RemoveAfterSetOrganization(users[1..], id, org);
      var s := SetUserOrganization(users, id, org);
      assert s[1..] == SetUserOrganization(users[1..], id, org);
    }
  }

  /** Deleting an organization that was just appended under a fresh id
      restores the table exactly. */
  lemma {:induction false} RemoveFreshOrganization(orgs: seq<Organization>, o: Organization)
    requires o.id !in OrgIds(orgs)
    ensures RemoveOrganization(orgs + [o], o.id) == orgs
  {
    if orgs == [] {
      assert [o][1..] == [];
    } else {
      assert (orgs + [o])[1..] == orgs[1..] + [o];
      assert orgs[0] in orgs;
      RemoveFreshOrganization(orgs[1..], o);
      assert orgs == [orgs[0]] + orgs[1..];
    }
  }

  // ---------------------------------------------------------------------
  // The handler's steps as a function of the stores it touches

  /** The three stores signup writes: auth accounts, organizations, profiles. */
  datatype Store = Store(users: seq<AuthUser>, orgs: seq<Organization>, profiles: map<Uuid, Profile>)

  /** What the environment decides: the ids the services generate, the text
      of a createUser error, and the calls that fail. */
  datatype SignupEnv = SignupEnv(newUserId: Uuid, newOrgId: Uuid, authErrorMessage: string, failing: set<Call>)

  datatype SignupOutcome = SignupOutcome(reply: Reply<SignupUser>, store: Store)

  /** The profile step fails: no existing profile was seen, and the account
      check or the insert (a duplicate id included) fails. */
  predicate ProfileStepFails(profiles: map<Uuid, Profile>, uid: Uuid, failing: set<Call>) {
    && !(ExistingProfileQuery !in failing && uid in profiles)
    && (UserCheck in failing || ProfileInsert in failing || uid in profiles)
  }

  /** An account exists or was created for the validated input. */
  predicate AccountStepOk(users: seq<AuthUser>, input: SignupInput, env: SignupEnv) {
    && UserList !in env.failing
    && (FindByEmail(users, input.email).None? ==>
          UserCreate !in env.failing && env.newUserId !in UserIds(users))
  }

  predicate OrgStepOk(orgs: seq<Organization>, env: SignupEnv) {
    OrgInsert !in env.failing && env.newOrgId !in OrgIds(orgs)
  }

  function NewOrganization(input: SignupInput, env: SignupEnv): Organization {
    Organization(env.newOrgId, input.organizationName, Some(input.organizationSubdomain))
  }

  function AdminProfile(uid: Uuid, input: SignupInput, env: SignupEnv): Profile {
    Profile(uid, Some(env.newOrgId), input.email, Some(input.fullName), "admin")
  }

  /** The account's metadata after the update, which fails silently. */
  function UsersWithOrganization(users: seq<AuthUser>, uid: Uuid, env: SignupEnv): seq<AuthUser> {
    if MetadataUpdate in env.failing then users else SetUserOrganization(users, uid, env.newOrgId)
  }

  /** The steps from `listUsers` on, for a validated body: each step that
      fails answers with its own status and error, after the compensating
      deletes of what the earlier steps created. */
  function Provision(st: Store, input: SignupInput, env: SignupEnv): (o: SignupOutcome)
    ensures UserList in env.failing ==>
              o == SignupOutcome(Failure(500, "Failed to check or create user account"), st)
    ensures UserList !in env.failing && !AccountStepOk(st.users, input, env) ==>
              o == SignupOutcome(Failure(400, env.authErrorMessage), st)
    ensures AccountStepOk(st.users, input, env) && !OrgStepOk(st.orgs, env) ==>
              o.reply == Failure(500, "Failed to create organization")
    ensures AccountStepOk(st.users, input, env) && OrgStepOk(st.orgs, env)
            && ProfileStepFails(st.profiles, AccountId(st.users, input.email, env.newUserId), env.failing) ==>
              o.reply == Failure(500, "Failed to create user profile")
    ensures o.reply.Success? <==>
              AccountStepOk(st.users, input, env) && OrgStepOk(st.orgs, env)
              && !ProfileStepFails(st.profiles, AccountId(st.users, input.email, env.newUserId), env.failing)
    ensures o.reply.Success? ==>
              o.reply == Success(200, SignupUser(AccountId(st.users, input.email, env.newUserId),
                                                 input.email, input.fullName, env.newOrgId, "admin"))
  {
    if UserList in env.failing then
      SignupOutcome(Failure(500, "Failed to check or create user account"), st)
    else if !AccountStepOk(st.users, input, env) then
      SignupOutcome(Failure(400, env.authErrorMessage), st)
    else
      var uid := AccountId(st.users, input.email, env.newUserId);
      var users1 := UsersWithAccount(st.users, input, env.newUserId);
      if !OrgStepOk(st.orgs, env) then
        SignupOutcome(Failure(500, "Failed to create organization"), st.(users := RemoveUser(users1, uid)))
      else
        var orgs1 := st.orgs + [NewOrganization(input, env)];
        var users2 := UsersWithOrganization(users1, uid, env);
        if ProfileStepFails(st.profiles, uid, env.failing) then
          SignupOutcome(Failure(500, "Failed to create user profile"),
                        Store(RemoveUser(users2, uid), RemoveOrganization(orgs1, env.newOrgId), st.profiles))
        else
          var profiles1 := if ExistingProfileQuery !in env.failing && uid in st.profiles then st.profiles
                           else st.profiles[uid := AdminProfile(uid, input, env)];
          SignupOutcome(Success(200, SignupUser(uid, input.email, input.fullName, env.newOrgId, "admin")),
                        Store(users2, orgs1, profiles1))
  }

  /** POST /api/auth/signup: validation, the signed-in and subdomain checks,
      then provisioning. */
  function SignupSpec(st: Store, auth: Option<Uuid>, body: RequestBody<SignupFields>,
                      isEmail: string -> bool, env: SignupEnv): (o: SignupOutcome)
    ensures body.Unparseable? ==> o == SignupOutcome(Failure(500, "Internal server error"), st)
    ensures !body.Unparseable? && ParseSignupBody(body, isEmail).Err? ==>
              o == SignupOutcome(Failure(400, "Validation error"), st)
    ensures ParseSignupBody(body, isEmail).Ok? && auth.Some? ==>
              o == SignupOutcome(Failure(400, "User already authenticated"), st)
    ensures ParseSignupBody(body, isEmail).Ok? && auth.None?
            && SubdomainTaken(st.orgs, ParseSignupBody(body, isEmail).value.organizationSubdomain, env.failing) ==>
              o == SignupOutcome(Failure(400, "Organization subdomain already taken"), st)
    ensures ParseSignupBody(body, isEmail).Ok? && auth.None?
            && !SubdomainTaken(st.orgs, ParseSignupBody(body, isEmail).value.organizationSubdomain, env.failing) ==>
              o == Provision(st, ParseSignupBody(body, isEmail).value, env)
  {
    var parsed := ParseSignupBody(body, isEmail);
    if parsed.Err? then SignupOutcome(BodyRejection(parsed.error), st)
    else if auth.Some? then SignupOutcome(Failure(400, "User already authenticated"), st)
    else if SubdomainTaken(st.orgs, parsed.value.organizationSubdomain, env.failing) then
      SignupOutcome(Failure(400, "Organization subdomain already taken"), st)
    else Provision(st, parsed.value, env)
  }

  /** Every rejection before the account step leaves all stores as they were. */
  lemma EarlyRejectionsChangeNothing(st: Store, auth: Option<Uuid>, body: RequestBody<SignupFields>,
                                     isEmail: string -> bool, env: SignupEnv)
    requires ParseSignupBody(body, isEmail).Err? || auth.Some?
             || SubdomainTaken(st.orgs, ParseSignupBody(body, isEmail).value.organizationSubdomain, env.failing)
             || UserList in env.failing
             || !AccountStepOk(st.users, ParseSignupBody(body, isEmail).value, env)
    ensures SignupSpec(st, auth, body, isEmail, env).reply.Failure?
    ensures SignupSpec(st, auth, body, isEmail, env).store == st
  {
  }

  /** A failed signup leaves no organization or profile behind and adds no
      account; when it fails after the account step, the account it worked
      with, created or reused, is gone. */
  lemma FailedSignupLeavesNothing(st: Store, input: SignupInput, env: SignupEnv)
    requires Provision(st, input, env).reply.Failure?
    ensures var o := Provision(st, input, env).store;
      && o.orgs == st.orgs && o.profiles == st.profiles
      && (forall u :: u in o.users ==> u in st.users)
      && (AccountStepOk(st.users, input, env) ==>
            o.users == RemoveUser(st.users, AccountId(st.users, input.email, env.newUserId)))
  {
    if AccountStepOk(st.users, input, env) {
      var uid := AccountId(st.users, input.email, env.newUserId);
      var users1 := UsersWithAccount(st.users, input, env.newUserId);
      AccountRemovable(st.users, input, env);
      if OrgStepOk(st.orgs, env) {
        RemoveFreshOrganization(st.orgs, NewOrganization(input, env));
        if MetadataUpdate !in env.failing {
          RemoveAfterSetOrganization(users1, uid, env.newOrgId);
        }
      }
    }
  }

  /** Whatever the outcome, a failure leaves organizations and profiles as they were. */
  lemma FailedSignupLeavesNothingIfFailed(st: Store, input: SignupInput, env: SignupEnv)
    ensures Provision(st, input, env).reply.Failure? ==>
              Provision(st, input, env).store.orgs == st.orgs && Provision(st, input, env).store.profiles == st.profiles
  {
    if Provision(st, input, env).reply.Failure? {
      FailedSignupLeavesNothing(st, input, env);
    }
  }

  /** Removing the account after it was found or created gives the user list
      without it. */
  lemma AccountRemovable(users: seq<AuthUser>, input: SignupInput, env: SignupEnv)
    requires AccountStepOk(users, input, env)
    ensures var uid := AccountId(users, input.email, env.newUserId);
      RemoveUser(UsersWithAccount(users, input, env.newUserId), uid) == RemoveUser(users, uid)
  {
    if FindByEmail(users, input.email).None? {
      RemoveFreshUser(users, AuthUser(env.newUserId, input.email, Some(input.fullName), None));
      RemoveAbsentUser(users, env.newUserId);
    }
  }

  /** Deleting an account that is not there changes nothing. */
  lemma {:induction false} RemoveAbsentUser(users: seq<AuthUser>, id: Uuid)
    requires id !in UserIds(users)
    ensures RemoveUser(users, id) == users
  {
    if users != [] {
      assert users[0] in users;
      RemoveAbsentUser(users[1..], id);
      assert users == [users[0]] + users[1..];
    }
  }

  /** A signup that succeeds adds exactly the new organization, answers with
      an admin of that organization, and leaves the account with a profile;
      the profile is the new admin profile unless one was already there. An
      account already registered under the email is reused, and no account
      is added; otherwise exactly one account, the new one, is added. */
  lemma SuccessfulSignup(st: Store, input: SignupInput, env: SignupEnv)
    requires Provision(st, input, env).reply.Success?
    ensures var o := Provision(st, input, env);
      var uid := AccountId(st.users, input.email, env.newUserId);
      && o.reply.value == SignupUser(uid, input.email, input.fullName, env.newOrgId, "admin")
      && o.store.orgs == st.orgs + [NewOrganization(input, env)]
      && uid in o.store.profiles
      && (ExistingProfileQuery in env.failing || uid !in st.profiles ==>
            o.store.profiles[uid] == AdminProfile(uid, input, env))
      && (ExistingProfileQuery !in env.failing && uid in st.profiles ==> o.store.profiles == st.profiles)
      && (exists i :: 0 <= i < |o.store.users| && o.store.users[i].id == uid)
      && (forall u :: u in st.users && u.id != uid ==> u in o.store.users)
      && (FindByEmail(st.users, input.email).Some? ==>
            uid == FindByEmail(st.users, input.email).value.id && |o.store.users| == |st.users|)
      && (FindByEmail(st.users, input.email).None? ==>
            uid == env.newUserId && |o.store.users| == |st.users| + 1)
  {
    var uid := AccountId(st.users, input.email, env.newUserId);
    var users1 := UsersWithAccount(st.users, input, env.newUserId);
    var i :| 0 <= i < |users1| && users1[i].id == uid;
    var users2 := UsersWithOrganization(users1, uid, env);
    assert users2[i].id == uid;
  }

  /** The stores after a successful signup, in full: a created profile is
      the only change to the profiles, and the account list is the one after
      the account step with the account tagged with the new organization,
      unless that metadata update failed. */
  lemma SuccessfulSignupStores(st: Store, input: SignupInput, env: SignupEnv)
    requires Provision(st, input, env).reply.Success?
    ensures var o := Provision(st, input, env).store;
      var uid := AccountId(st.users, input.email, env.newUserId);
      var users1 := UsersWithAccount(st.users, input, env.newUserId);
      && (ExistingProfileQuery in env.failing || uid !in st.profiles ==>
            o.profiles == st.profiles[uid := AdminProfile(uid, input, env)])
      && (MetadataUpdate !in env.failing ==>
            && o.users == SetUserOrganization(users1, uid, env.newOrgId)
            && forall u :: u in o.users && u.id == uid ==> u.organizationId == Some(env.newOrgId))
      && (MetadataUpdate in env.failing ==> o.users == users1)
  {
    var o := Provision(st, input, env).store;
    var uid := AccountId(st.users, input.email, env.newUserId);
    var users1 := UsersWithAccount(st.users, input, env.newUserId);
    if MetadataUpdate !in env.failing {
      assert o.users == SetUserOrganization(users1, uid, env.newOrgId);
      forall u | u in o.users && u.id == uid
        ensures u.organizationId == Some(env.newOrgId)
      {
        var i :| 0 <= i < |o.users| && o.users[i] == u;
        assert users1[i].id == uid;
      }
    }
  }

  /** When the email belongs to an existing account and the organization
      insert fails, the compensating delete removes that existing account. */
  lemma ReusedAccountDeletedOnOrgFailure(st: Store, input: SignupInput, env: SignupEnv)
    requires UserList !in env.failing && FindByEmail(st.users, input.email).Some?
    requires !OrgStepOk(st.orgs, env)
    ensures var existing := FindByEmail(st.users, input.email).value;
      existing in st.users && existing !in Provision(st, input, env).store.users
  {
  }
}
