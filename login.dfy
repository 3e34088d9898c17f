/** The login screen's view model: one guard, then a simulated request. */
module Login {
  import opened Wrappers

  /** The error `login` reports, if any: both fields must be filled in. */
  function LoginError(phone: string, password: string): (e: Option<string>)
    ensures e == None <==> phone != [] && password != []
    ensures e != None ==> e == Some("请输入手机号和密码")
  {
    if phone == [] || password == [] then Some("请输入手机号和密码") else None
  }

  class LoginViewModel {
    var phone: string
    var password: string
    var isLoading: bool
    var error: Option<string>

    constructor ()
      ensures phone == [] && password == [] && !isLoading && error == None
    {
      phone, password, isLoading, error := [], [], false, None;
    }

    /** `login`: an empty field sets the error; otherwise the request starts and any earlier error stays. */
    method Login()
      modifies this
      ensures LoginError(phone, password) != None ==> error == LoginError(phone, password) && isLoading == old(isLoading)
      ensures LoginError(phone, password) == None ==> isLoading && error == old(error)
      ensures phone == old(phone) && password == old(password)
    {
      var e := LoginError(phone, password);
      if e.Some? {
        error := e;
        return;
      }
      isLoading := true;
    }

    /** The request's completion. */
    method LoginCompleted()
      modifies this
      ensures !isLoading
      ensures error == old(error) && phone == old(phone) && password == old(password)
    {
      isLoading := false;
    }
  }
}
