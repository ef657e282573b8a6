/** The user record of `accounts/models.py`: signs in with its email, shows
    itself by its full name, and is a superuser exactly when it is staff. */
module AccountsModels {
  import opened Wrappers
  import opened OrdersModels

  /** A user row; `patronymic` may be null. */
  datatype User = User(email: string, firstName: string, lastName: string, username: string,
                       patronymic: Option<string>, isStaff: bool)

  /** `USERNAME_FIELD`: users sign in with their email. */
  const UsernameField: string := "email"

  /** The fields `createsuperuser` asks for besides the email and password. */
  const RequiredFields: seq<string> := ["first_name", "last_name", "username"]

  /** How an f-string renders an optional text: a null becomes `None`. */
  function Rendered(s: Option<string>): (r: string)
    ensures s.Some? ==> r == s.value
    ensures s.None? ==> r == "None"
  {
    match s
    case Some(text) => text
    case None => "None"
  }

  /** `full_name` (and `__str__`, which returns it): first name, patronymic
      and last name, one space between each. */
  function FullName(u: User): (s: string)
    ensures |s| == |u.firstName| + |Rendered(u.patronymic)| + |u.lastName| + 2
    ensures s[..|u.firstName|] == u.firstName && s[|u.firstName|] == ' '
    ensures s[|u.firstName| + 1..|s| - |u.lastName| - 1] == Rendered(u.patronymic)
    ensures s[|s| - |u.lastName| - 1] == ' ' && s[|s| - |u.lastName|..] == u.lastName
  {
    u.firstName + " " + Rendered(u.patronymic) + " " + u.lastName
  }

  /** A user without a patronymic shows the word `None` in its middle. */
  lemma FullNameWithoutPatronymic(u: User)
    requires u.patronymic.None?
    ensures FullName(u)[|u.firstName| + 1..|u.firstName| + 5] == "None"
  {
  }

  /** The user of the account tests. */
  lemma FullNameExample(u: User, first: string, middle: string, last: string)
    requires first == "Andrey" && middle == "Olegovich" && last == "Diatlov"
    requires u.firstName == first && u.patronymic == Some(middle) && u.lastName == last
    ensures FullName(u) == "Andrey Olegovich Diatlov"
  {
  }

  /** `has_perm`: every permission is granted to every user. */
  function HasPerm(u: User, perm: string, obj: Option<Order>): (granted: bool)
    ensures granted
  {
    true
  }

  /** `has_module_perms`: every app's permissions are granted to every user. */
  function HasModulePerms(u: User, appLabel: string): (granted: bool)
    ensures granted
  {
    true
  }

  /** `is_superuser`: exactly the staff users. */
  function IsSuperuser(u: User): (r: bool)
    ensures r <==> u.isStaff
  {
    u.isStaff
  }

  /** The email column is unique. */
  ghost predicate EmailsUnique(users: map<UserId, User>)
  {
    forall a, b :: a in users && b in users && users[a].email == users[b].email ==> a == b
  }

  /** The user that signs in with `email`, if any: since emails are unique,
      at most one user has it. */
  function UserByEmail(users: map<UserId, User>, email: string): (r: Option<UserId>)
    requires EmailsUnique(users)
    ensures r.Some? <==> exists id :: id in users && users[id].email == email
    ensures r.Some? ==> r.value in users && users[r.value].email == email
    ensures r.Some? ==> forall id :: id in users && users[id].email == email ==> id == r.value
  {
    if exists id :: id in users && users[id].email == email then
      var id :| id in users && users[id].email == email;
      Some(id)
    else
      None
  }
}
