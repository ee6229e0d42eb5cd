/**
 * The client portal page (src/pages/client-portal/index.tsx): the demo sign-in form,
 * sign-out, the tab switch, and the badge colour and icon of an appointment status.
 */
module ClientPortal {

  const MissingCredentials: string := "Please enter email and password"
  const InvalidCredentials: string := "Invalid credentials"

  /** The shortest password the demo sign-in accepts. */
  const MinPasswordLength: nat := 6

  datatype Tab = Appointments | Profile | Documents

  /** The page's state hooks. */
  class Portal {
    var isAuthenticated: bool
    var loginEmail: string
    var loginPassword: string
    var loginError: string
    var activeTab: Tab

    /** While signed in, the sign-in form is gone and its fields and error are empty. */
    predicate Valid()
      reads this
    {
      isAuthenticated ==> loginEmail == "" && loginPassword == "" && loginError == ""
    }

    constructor ()
      ensures Valid() && !isAuthenticated && loginEmail == "" && loginPassword == "" && loginError == ""
      ensures activeTab == Appointments
    {
      isAuthenticated := false;
      loginEmail := "";
      loginPassword := "";
      loginError := "";
      activeTab := Appointments;
    }

    /** The e-mail input's `onChange`; the input exists only on the sign-in screen. */
    method SetLoginEmail(value: string)
      requires Valid() && !isAuthenticated
      modifies this
      ensures Valid() && loginEmail == value
      ensures isAuthenticated == old(isAuthenticated) && loginPassword == old(loginPassword)
      ensures loginError == old(loginError) && activeTab == old(activeTab)
    {
      loginEmail := value;
    }

    /** The password input's `onChange`; the input exists only on the sign-in screen. */
    method SetLoginPassword(value: string)
      requires Valid() && !isAuthenticated
      modifies this
      ensures Valid() && loginPassword == value
      ensures isAuthenticated == old(isAuthenticated) && loginEmail == old(loginEmail)
      ensures loginError == old(loginError) && activeTab == old(activeTab)
    {
      loginPassword := value;
    }

    /**
     * `handleLogin`: an empty field gives "Please enter email and password"; a password
     * of six characters or more signs in and clears the form; a shorter one gives
     * "Invalid credentials".
     */
    method HandleLogin()
      requires Valid() && !isAuthenticated
      modifies this
      ensures Valid() && activeTab == old(activeTab)
      ensures isAuthenticated <==> LoginAccepted(old(loginEmail), old(loginPassword))
      ensures loginError == LoginError(old(loginEmail), old(loginPassword))
      ensures !isAuthenticated ==> loginEmail == old(loginEmail) && loginPassword == old(loginPassword)
    {
      if loginEmail == "" || loginPassword == "" {
        loginError := MissingCredentials;
        return;
      }
      if loginEmail != "" && |loginPassword| >= MinPasswordLength {
        isAuthenticated := true;
        loginError := "";
        loginEmail := "";
        loginPassword := "";
      } else {
        loginError := InvalidCredentials;
      }
    }

    /** `handleLogout`: signs out and clears the form fields; the error message is left as it was. */
    method HandleLogout()
      requires Valid()
      modifies this
      ensures Valid() && !isAuthenticated && loginEmail == "" && loginPassword == ""
      ensures loginError == old(loginError) && activeTab == old(activeTab)
    {
      isAuthenticated := false;
      loginEmail := "";
      loginPassword := "";
    }

    /** A tab button's `onClick`. */
    method SetActiveTab(tab: Tab)
      requires Valid()
      modifies this
      ensures Valid() && activeTab == tab
      ensures isAuthenticated == old(isAuthenticated) && loginEmail == old(loginEmail)
      ensures loginPassword == old(loginPassword) && loginError == old(loginError)
    {
      activeTab := tab;
    }
  }

  /** The demo check: any non-empty e-mail with a password of at least six characters. */
  predicate LoginAccepted(email: string, password: string) {
    email != "" && |password| >= MinPasswordLength
  }

  /** The message `handleLogin` leaves for the given fields. */
  function LoginError(email: string, password: string): (message: string)
    ensures message == "" <==> LoginAccepted(email, password)
    ensures message == MissingCredentials <==> email == "" || password == ""
    ensures message == InvalidCredentials <==> email != "" && 0 < |password| < MinPasswordLength
  {
    if email == "" || password == "" then MissingCredentials
    else if |password| >= MinPasswordLength then ""
    else InvalidCredentials
  }

  /** `getStatusColor`: the badge classes for each known status, grey for any other. */
  function StatusColor(status: string): (classes: string)
    ensures classes == "bg-gray-100 text-gray-800" <==> !KnownStatus(status)
  {
    if status == "confirmed" then "bg-green-100 text-green-800"
    else if status == "pending" then "bg-yellow-100 text-yellow-800"
    else if status == "completed" then "bg-blue-100 text-blue-800"
    else if status == "cancelled" then "bg-red-100 text-red-800"
    else "bg-gray-100 text-gray-800"
  }

  /** `getStatusIcon`: a symbol for each known status, a bullet for any other. */
  function StatusIcon(status: string): (icon: string)
    ensures icon == "•" <==> !KnownStatus(status)
  {
    if status == "confirmed" then "✓"
    else if status == "pending" then "⏳"
    else if status == "completed" then "✓✓"
    else if status == "cancelled" then "✕"
    else "•"
  }

  /** The four values of the `status` field of an appointment. */
  predicate KnownStatus(status: string) {
    status == "confirmed" || status == "pending" || status == "completed" || status == "cancelled"
  }

  /** Each known status gets its own colour and its own icon. */
  lemma StatusBadgesDistinct(s: string, t: string)
    requires KnownStatus(s) && KnownStatus(t) && s != t
    ensures StatusColor(s) != StatusColor(t)
    ensures StatusIcon(s) != StatusIcon(t)
  {
  }
}
