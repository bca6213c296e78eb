/** The build service accounts of an organization, derived from the listed
    service users, and the id-to-name table the committer statistics use. */
module Accounts {
  import opened Wrappers
  import opened Text

  /** A listed service user; absent 'principalName' and 'displayName' are "". */
  datatype User = User(domain: Option<string>, principalName: string, displayName: string)

  /** A build service account: its id is "Build\<principal name>". */
  datatype Account = Account(id: string, name: string, description: string)

  const AccountPrefix: string := "Build\\"

  /** What Azure DevOps appends to a project name to name its build service. */
  function ServiceSuffix(organization: string): string {
    " Build Service (" + organization + ")"
  }

  /** The project a build service serves: the display name without the
      suffix, stripped; "" when the suffix is absent. */
  function ServedProject(displayName: string, organization: string): (p: string)
    ensures !EndsWith(displayName, ServiceSuffix(organization)) ==> p == ""
    ensures EndsWith(displayName, ServiceSuffix(organization)) ==>
      p == Strip(displayName[..|displayName| - |ServiceSuffix(organization)|])
  {
    var suffix := ServiceSuffix(organization);
    if EndsWith(displayName, suffix) then Strip(displayName[..|displayName| - |suffix|]) else ""
  }

  /** Naming a build service after a project and reading the project back
      gives that project, when the name has no surrounding whitespace. */
  lemma ServedProjectRoundTrip(project: string, organization: string)
    requires Strip(project) == project
    ensures ServedProject(project + ServiceSuffix(organization), organization) == project
  {
    var name := project + ServiceSuffix(organization);
    assert name[|name| - |ServiceSuffix(organization)|..] == ServiceSuffix(organization);
    assert name[..|name| - |ServiceSuffix(organization)|] == project;
  }

  function AccountOf(organization: string, u: User): (a: Account)
    ensures StartsWith(a.id, AccountPrefix) && a.id[|AccountPrefix|..] == u.principalName
    ensures a.name == u.displayName
  {
    var a := Account(AccountPrefix + u.principalName, u.displayName,
      "A build service account for project " + ServedProject(u.displayName, organization) + ".");
    assert a.id[..|AccountPrefix|] == AccountPrefix;
    a
  }

  predicate IsBuildUser(u: User) {
    u.domain == Some("Build")
  }

  /** `get_all_build_service_accounts` on the listed users: one account per
      user of the 'Build' domain, in order. */
  function BuildAccounts(organization: string, users: seq<User>): seq<Account>
    decreases |users|
  {
    if users == [] then []
    else
      var earlier := BuildAccounts(organization, users[..|users| - 1]);
      var u := users[|users| - 1];
      if IsBuildUser(u) then earlier + [AccountOf(organization, u)] else earlier
  }

  /** Every account comes from a 'Build' user and every such user gives one,
      so each account id carries the prefix the committer statistics test. */
  lemma {:induction false} BuildAccountsFromBuildUsers(organization: string, users: seq<User>)
    ensures forall a :: a in BuildAccounts(organization, users) ==>
      StartsWith(a.id, AccountPrefix) && exists i :: 0 <= i < |users| && IsBuildUser(users[i]) && a == AccountOf(organization, users[i])
    ensures forall i :: 0 <= i < |users| && IsBuildUser(users[i]) ==> AccountOf(organization, users[i]) in BuildAccounts(organization, users)
    decreases |users|
  {
    if users != [] {
      var init := users[..|users| - 1];
      BuildAccountsFromBuildUsers(organization, init);
      assert forall i :: 0 <= i < |init| ==> init[i] == users[i];
    }
  }

  /** The loop of `get_all_build_service_accounts`. */
  method AllBuildServiceAccounts(organization: string, users: seq<User>) returns (results: seq<Account>)
    ensures results == BuildAccounts(organization, users)
  {
    results := [];
    for i := 0 to |users|
      invariant results == BuildAccounts(organization, users[..i])
    {
      assert users[..i + 1][..i] == users[..i];
      var u := users[i];
      if u.domain != Some("Build") {
        continue;
      }
      var suffix := " Build Service (" + organization + ")";
      var project := "";
      if EndsWith(u.displayName, suffix) {
        project := Strip(u.displayName[..|u.displayName| - |suffix|]);
      }
      var description := "A build service account for project " + project + ".";
      results := results + [Account("Build\\" + u.principalName, u.displayName, description)];
    }
    assert users[..|users|] == users;
  }

  /** `{acc['id']: acc['name'] for acc in accounts}`: a later account with the
      same id wins. */
  function AccountNames(accounts: seq<Account>): (m: map<string, string>)
    ensures forall id :: id in m <==> exists i :: 0 <= i < |accounts| && accounts[i].id == id
    decreases |accounts|
  {
    if accounts == [] then map[]
    else
      var init := accounts[..|accounts| - 1];
      var a := accounts[|accounts| - 1];
      assert forall i :: 0 <= i < |init| ==> init[i] == accounts[i];
      AccountNames(init)[a.id := a.name]
  }

  /** The name the table gives an id is the name of the last account with
      that id. */
  lemma {:induction false} AccountNamesLastWins(accounts: seq<Account>, i: nat)
    requires i < |accounts|
    requires forall j :: i < j < |accounts| ==> accounts[j].id != accounts[i].id
    ensures AccountNames(accounts)[accounts[i].id] == accounts[i].name
    decreases |accounts|
  {
    if i < |accounts| - 1 {
      var init := accounts[..|accounts| - 1];
      AccountNamesLastWins(init, i);
    }
  }
}
