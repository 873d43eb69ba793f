/** The sign-up form: a record of four text fields, an error line and a loading flag. */
module Signup {
  import opened Common
  import App

  const MismatchError := "Les emails ne correspondent pas"
  const RegisterError := "Erreur lors de l'inscription"

  /** The form record as first rendered. */
  const EmptyForm: map<string, string> :=
    map["username" := "", "email" := "", "emailConfirm" := "", "password" := ""]

  /** What the registration endpoint's answer amounts to. */
  datatype RegisterResponse =
    | Registered
    | RegisterFailed(message: Option<string>)   // the server's `message`, when it sent one

  class SignupForm {
    var formData: map<string, string>
    var error: string
    var loading: bool

    /** The two compared fields are always present: they start present and edits only add or replace. */
    ghost predicate Valid()
      reads this
    {
      "email" in formData && "emailConfirm" in formData
    }

    constructor ()
      ensures Valid()
      ensures formData == EmptyForm && error == "" && !loading
    {
      formData := EmptyForm;
      error := "";
      loading := false;
    }

    /** An input's change: the field named like the input takes its value. */
    method Change(name: string, value: string)
      requires Valid()
      modifies this`formData
      ensures Valid()
      ensures name in formData && formData[name] == value
      ensures formData.Keys == old(formData.Keys) + {name}
      ensures forall k :: k in old(formData) && k != name ==> formData[k] == old(formData)[k]
    {
      formData := formData[name := value];
    }

    /** A submit, up to the registration request. `request` is the record sent, None
        when the two e-mail fields differ and nothing is sent. */
    method Submit() returns (request: Option<map<string, string>>)
      requires Valid()
      modifies this`error, this`loading
      ensures Valid()
      ensures request.Some? <==> formData["email"] == formData["emailConfirm"]
      ensures request.Some? ==> request.value == formData && loading && error == ""
      ensures request.None? ==> error == MismatchError && loading == old(loading)
    {
      error := "";
      if formData["email"] != formData["emailConfirm"] {
        error := MismatchError;
        return None;
      }
      loading := true;
      request := Some(formData);
    }

    /** The registration response arrives. `next` is the page the form navigates to, None when it stays. */
    method RegisterSettled(resp: RegisterResponse) returns (next: Option<string>)
      requires Valid()
      modifies this`error, this`loading
      ensures Valid() && !loading
      ensures resp.Registered? ==> next == Some(App.LoginPage) && error == old(error)
      ensures resp.RegisterFailed? ==> next.None? && error == OrElse(resp.message, RegisterError)
    {
      next := None;
      match resp {
        case Registered =>
          next := Some(App.LoginPage);
        case RegisterFailed(message) =>
          error := OrElse(message, RegisterError);
      }
      loading := false;
    }
  }
}
