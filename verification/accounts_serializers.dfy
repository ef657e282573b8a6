/** The account serializers of `accounts/serializers.py`: the password
    confirmation check and the data shaping of registration, and the claims
    a sign-in token carries. Request data is a map from field name to text;
    a field sent as null is the same as a field left out. */
module AccountsSerializers {
  import opened Wrappers
  import opened AccountsModels

  type Fields = map<string, string>

  /** The message of the password mismatch. */
  const PasswordMismatch: string := "Пароли не совпадают"

  /** `CreateUserSerializer.validate`: the two passwords must agree (both
      missing counts as agreeing); then the data passes unchanged. Otherwise
      the error is keyed by `password_confirm`. */
  function Validate(attrs: Fields): (r: Result<Fields, Fields>)
    ensures r.Ok? <==> Get(attrs, "password") == Get(attrs, "password_confirm")
    ensures r.Ok? ==> r.value == attrs
    ensures r.Err? ==> r.error == map["password_confirm" := PasswordMismatch]
  {
    var password := Get(attrs, "password");
    var confirm := Get(attrs, "password_confirm");
    if password != confirm then Err(map["password_confirm" := PasswordMismatch]) else Ok(attrs)
  }

  /** Data that passed validation with a password carries the same text as
      its confirmation, so the password `create` keeps is the confirmed one. */
  lemma ValidatedPasswordConfirmed(attrs: Fields)
    requires Validate(attrs).Ok? && "password" in attrs
    ensures "password_confirm" in attrs && attrs["password_confirm"] == attrs["password"]
  {
  }

  /** The arguments `create` hands to the user manager's `create_user`. */
  datatype NewUser = NewUser(firstName: string, lastName: string, email: string, username: string,
                             password: string, patronymic: Option<string>)

  /** The keys `create` takes out of the data, in the order it takes them; a
      missing one raises `KeyError`. */
  const CreateKeys: seq<string> := ["password_confirm", "password", "first_name", "last_name", "email", "username"]

  /** `CreateUserSerializer.create`: pop the confirmation and the password off
      the data, then read the other fields. The result is the missing key
      that stops it, or the arguments for `create_user`; the confirmation
      never reaches the user. */
  method Create(validated: Fields) returns (r: Result<NewUser, string>)
    ensures r.Ok? <==> forall i :: 0 <= i < |CreateKeys| ==> CreateKeys[i] in validated
    ensures r.Ok? ==> && "first_name" in validated && "last_name" in validated && "email" in validated
                      && "username" in validated && "password" in validated
                      && r.value == NewUser(validated["first_name"], validated["last_name"], validated["email"],
                                            validated["username"], validated["password"], Get(validated, "patronymic"))
    ensures r.Err? ==> exists i :: && 0 <= i < |CreateKeys| && CreateKeys[i] == r.error && r.error !in validated
                                   && forall j :: 0 <= j < i ==> CreateKeys[j] in validated
  {
    var data := validated;
    if "password_confirm" !in data {
      assert CreateKeys[0] == "password_confirm";
      return Err("password_confirm");
    }
    data := data - {"password_confirm"};
    if "password" !in data {
      assert CreateKeys[1] == "password";
      return Err("password");
    }
    var password := data["password"];
    data := data - {"password"};
    if "first_name" !in data {
      assert CreateKeys[2] == "first_name";
      return Err("first_name");
    }
    if "last_name" !in data {
      assert CreateKeys[3] == "last_name";
      return Err("last_name");
    }
    if "email" !in data {
      assert CreateKeys[4] == "email";
      return Err("email");
    }
    if "username" !in data {
      assert CreateKeys[5] == "username";
      return Err("username");
    }
    return Ok(NewUser(data["first_name"], data["last_name"], data["email"], data["username"],
                      password, Get(data, "patronymic")));
  }

  /** The keys `get_token` writes into the token. */
  const ClaimKeys: set<string> := {"email", "first_name", "last_name", "username", "group"}

  /** The group a user's token names. */
  function Group(u: User): (g: string)
    ensures g == "admin2" <==> u.isStaff
    ensures g == "admin2" || g == "user"
  {
    if u.isStaff then "admin2" else "user"
  }

  /** `MyTokenObtainPairSerializer.get_token`: add the user's email, names
      and username to the claims of the base token, and the group, which is
      `admin2` for staff and `user` for everybody else; the base token's
      other claims stay as they were. */
  method GetToken(u: User, base: Fields) returns (token: Fields)
    ensures token.Keys == base.Keys + ClaimKeys
    ensures token["email"] == u.email && token["first_name"] == u.firstName
    ensures token["last_name"] == u.lastName && token["username"] == u.username
    ensures token["group"] == Group(u)
    ensures forall k :: k in base && k !in ClaimKeys ==> token[k] == base[k]
  {
    token := base;
    token := token["email" := u.email];
    token := token["first_name" := u.firstName];
    token := token["last_name" := u.lastName];
    token := token["username" := u.username];
    if u.isStaff {
      token := token["group" := "admin2"];
    } else {
      token := token["group" := "user"];
    }
  }

  /** The token's group is `admin2` exactly for the superusers. */
  lemma GroupIsSuperuser(u: User)
    ensures Group(u) == "admin2" <==> IsSuperuser(u)
  {
  }
}
