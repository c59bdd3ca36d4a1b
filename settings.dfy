/**
 * The settings page: the notification and two-factor switches, the language
 * and time-zone choices, and the password form with its own rules (a minimum
 * of 8 characters, where the profile page asks for 6).
 */
module Settings {
  import opened Wrappers
  import Profile

  datatype SettingsRecord = SettingsRecord(
    emailNotifications: bool,
    marketingEmails: bool,
    orderUpdates: bool,
    newArrivals: bool,
    language: string,
    timezone: string,
    twoFactorAuth: bool)

  /** The state the page starts with. */
  const InitialSettings := SettingsRecord(true, false, true, true, "en", "EST", false)

  /** The four notification switches. */
  datatype NotificationKey = EmailNotifications | MarketingEmails | OrderUpdates | NewArrivals

  /** The two preference lists. */
  datatype PreferenceKey = Language | Timezone

  function Flag(s: SettingsRecord, key: NotificationKey): bool
  {
    match key
    case EmailNotifications => s.emailNotifications
    case MarketingEmails => s.marketingEmails
    case OrderUpdates => s.orderUpdates
    case NewArrivals => s.newArrivals
  }

  function Preference(s: SettingsRecord, key: PreferenceKey): string
  {
    match key
    case Language => s.language
    case Timezone => s.timezone
  }

  /** `{ ...prev, [key]: !prev[key] }` for a notification switch. */
  function ToggleNotification(s: SettingsRecord, key: NotificationKey): (r: SettingsRecord)
    ensures Flag(r, key) == !Flag(s, key)
    ensures forall k :: k != key ==> Flag(r, k) == Flag(s, k)
    ensures forall p :: Preference(r, p) == Preference(s, p)
    ensures r.twoFactorAuth == s.twoFactorAuth
  {
    match key
    case EmailNotifications => s.(emailNotifications := !s.emailNotifications)
    case MarketingEmails => s.(marketingEmails := !s.marketingEmails)
    case OrderUpdates => s.(orderUpdates := !s.orderUpdates)
    case NewArrivals => s.(newArrivals := !s.newArrivals)
  }

  /** `{ ...prev, twoFactorAuth: !prev.twoFactorAuth }`. */
  function ToggleTwoFactor(s: SettingsRecord): (r: SettingsRecord)
    ensures r.twoFactorAuth == !s.twoFactorAuth
    ensures forall k :: Flag(r, k) == Flag(s, k)
    ensures forall p :: Preference(r, p) == Preference(s, p)
  {
    s.(twoFactorAuth := !s.twoFactorAuth)
  }

  /** `{ ...prev, [pref.key]: value }` for a preference list. */
  function SelectPreference(s: SettingsRecord, key: PreferenceKey, value: string): (r: SettingsRecord)
    ensures Preference(r, key) == value
    ensures forall p :: p != key ==> Preference(r, p) == Preference(s, p)
    ensures forall k :: Flag(r, k) == Flag(s, k)
    ensures r.twoFactorAuth == s.twoFactorAuth
  {
    match key
    case Language => s.(language := value)
    case Timezone => s.(timezone := value)
  }

  /** Pressing a switch twice restores the settings. */
  lemma ToggleTwiceRestores(s: SettingsRecord, key: NotificationKey)
    ensures ToggleNotification(ToggleNotification(s, key), key) == s
    ensures ToggleTwoFactor(ToggleTwoFactor(s)) == s
  {
  }

  // ---------------------------------------------------------------------
  // Password form

  /** The three password inputs; `newPassword` is the source's `new`. */
  datatype PasswordFields = PasswordFields(current: string, newPassword: string, confirm: string)

  const EmptyFields := PasswordFields("", "", "")

  /** The checks of `handlePasswordChange`: mismatch first, then a minimum of 8. */
  function PasswordChangeError(p: PasswordFields): (r: Option<string>)
    ensures p.newPassword != p.confirm ==> r == Some("New passwords do not match")
    ensures p.newPassword == p.confirm && |p.newPassword| < 8
      ==> r == Some("Password must be at least 8 characters")
    ensures r == None <==> p.newPassword == p.confirm && |p.newPassword| >= 8
  {
    if p.newPassword != p.confirm then Some("New passwords do not match")
    else if |p.newPassword| < 8 then Some("Password must be at least 8 characters")
    else None
  }

  /**
   * The two pages disagree on purpose: a matching password of 6 or 7
   * characters passes the profile page's check and fails this one's, while
   * every password this page accepts the profile page accepts too.
   */
  lemma PasswordRulesDiffer(current: string, password: string)
    ensures |password| in {6, 7} ==>
      && Profile.PasswordChangeError(Profile.PasswordData(current, password, password)) == None
      && PasswordChangeError(PasswordFields(current, password, password)).Some?
    ensures PasswordChangeError(PasswordFields(current, password, password)) == None ==>
      Profile.PasswordChangeError(Profile.PasswordData(current, password, password)) == None
  {
  }

  // ---------------------------------------------------------------------
  // The page's state

  class SettingsPage {
    var settings: SettingsRecord
    var password: PasswordFields
    var updatingPassword: bool

    constructor ()
      ensures settings == InitialSettings && password == EmptyFields && !updatingPassword
    {
      settings := InitialSettings;
      password := EmptyFields;
      updatingPassword := false;
    }

    /**
     * Whether the update button can be pressed: all three inputs filled and
     * no update running.
     */
    predicate CanUpdatePassword()
      reads this
    {
      password.current != "" && password.newPassword != "" && password.confirm != "" && !updatingPassword
    }

    /** A notification switch: negates that key only. */
    method ToggleNotificationSwitch(key: NotificationKey)
      modifies this
      ensures settings == ToggleNotification(old(settings), key)
      ensures password == old(password) && updatingPassword == old(updatingPassword)
    {
      settings := ToggleNotification(settings, key);
    }

    /** The two-factor switch: negates `twoFactorAuth` only. */
    method ToggleTwoFactorSwitch()
      modifies this
      ensures settings == ToggleTwoFactor(old(settings))
      ensures password == old(password) && updatingPassword == old(updatingPassword)
    {
      settings := ToggleTwoFactor(settings);
    }

    /** A preference list: sets that key only. */
    method ChoosePreference(key: PreferenceKey, value: string)
      modifies this
      ensures settings == SelectPreference(old(settings), key, value)
      ensures password == old(password) && updatingPassword == old(updatingPassword)
    {
      settings := SelectPreference(settings, key, value);
    }

    /**
     * `handlePasswordChange`, up to the delay: a mismatch or a short password
     * is reported with nothing changed; otherwise the update starts, which
     * disables the button until `FinishPasswordUpdate` runs.
     */
    method HandlePasswordChange() returns (r: Option<string>)
      modifies this
      ensures r == PasswordChangeError(old(password))
      ensures r.Some? ==> unchanged(this)
      ensures r.None? ==>
        updatingPassword && password == old(password) && settings == old(settings)
        && !CanUpdatePassword()
    {
      r := PasswordChangeError(password);
      if r.None? {
        updatingPassword := true;
      }
    }

    /** The delayed part: the update ends and all three inputs are emptied. */
    method FinishPasswordUpdate()
      modifies this
      ensures !updatingPassword && password == EmptyFields
      ensures settings == old(settings)
      ensures !CanUpdatePassword()
    {
      updatingPassword := false;
      password := EmptyFields;
    }
  }
}
