/**
 * The profile page: statistics derived from the user's orders, the checks run
 * before saving an edited profile, the password change form, and the
 * show/hide toggles of its three password fields.
 */
module Profile {
  import opened Wrappers
  import opened Ascii
  import opened Storage
  import Seqs

  // ---------------------------------------------------------------------
  // Statistics

  /** An order as stored for a user; an empty `date` stands for a missing one. */
  datatype Order = Order(id: string, status: string, date: string)

  datatype Activity = Activity(action: string, time: string, status: string, orderId: string)

  datatype UserStats = UserStats(
    totalOrders: nat,
    wishlistItems: nat,
    loyaltyPoints: nat,
    deliveredOrders: nat,
    recentActivity: seq<Activity>)

  /** The callback `order => order.status === 'delivered'`. */
  function IsDelivered(): Order -> bool
  {
    (o: Order) => o.status == "delivered"
  }

  /** The complement of `IsDelivered`. */
  function NotDelivered(): Order -> bool
  {
    (o: Order) => o.status != "delivered"
  }

  /** The action label of an order: one label per known status, "Order Placed" otherwise. */
  function ActionLabel(status: string): (text: string)
    ensures text == "Order Delivered" <==> status == "delivered"
    ensures text == "Order Shipped" <==> status == "shipped"
    ensures text == "Order Processing" <==> status == "processing"
    ensures text == "Order Placed" <==> status !in {"delivered", "shipped", "processing"}
  {
    if status == "delivered" then "Order Delivered"
    else if status == "shipped" then "Order Shipped"
    else if status == "processing" then "Order Processing"
    else "Order Placed"
  }

  /** The status label of an order: delivered, cancelled, or in progress. */
  function StatusLabel(status: string): (text: string)
    ensures text == "Delivered" <==> status == "delivered"
    ensures text == "Cancelled" <==> status == "cancelled"
    ensures text == "In Progress" <==> status !in {"delivered", "cancelled"}
  {
    if status == "delivered" then "Delivered"
    else if status == "cancelled" then "Cancelled"
    else "In Progress"
  }

  /** One entry of the recent-activity list. */
  function Describe(order: Order): (a: Activity)
    ensures a.orderId == order.id
    ensures a.time == (if order.date == "" then "Recently" else order.date)
    ensures a.action == ActionLabel(order.status) && a.status == StatusLabel(order.status)
  {
    Activity(ActionLabel(order.status), if order.date == "" then "Recently" else order.date,
             StatusLabel(order.status), order.id)
  }

  function Min(a: int, b: int): int { if a <= b then a else b }

  /**
   * `loadUserStats` once the orders and the saved wishlist have been read:
   * order counts, loyalty points and the first four orders as activity.
   */
  function LoadUserStats(orders: seq<Order>, wishlistItems: nat): (s: UserStats)
    ensures s.totalOrders == |orders| && s.wishlistItems == wishlistItems
    ensures s.deliveredOrders <= s.totalOrders
    ensures s.deliveredOrders + |Seqs.Filter(orders, NotDelivered())| == |orders|
    ensures s.loyaltyPoints == 100 * s.totalOrders + 50 * s.deliveredOrders + 10 * wishlistItems
    ensures 100 * |orders| + 10 * wishlistItems <= s.loyaltyPoints <= 150 * |orders| + 10 * wishlistItems
    ensures |s.recentActivity| == Min(4, |orders|)
    ensures forall i :: 0 <= i < |s.recentActivity| ==> s.recentActivity[i] == Describe(orders[i])
  {
    Seqs.FilterPartition(orders, IsDelivered(), NotDelivered());
    var delivered := |Seqs.Filter(orders, IsDelivered())|;
    var recent := orders[..Min(4, |orders|)];
    UserStats(
      |orders|,
      wishlistItems,
      |orders| * 100 + delivered * 50 + wishlistItems * 10,
      delivered,
      seq(|recent|, i requires 0 <= i < |recent| => Describe(recent[i])))
  }

  /** A further order earns 150 points once delivered and 100 otherwise. */
  lemma NewOrderPoints(orders: seq<Order>, order: Order, wishlistItems: nat)
    ensures LoadUserStats(orders + [order], wishlistItems).loyaltyPoints
         == LoadUserStats(orders, wishlistItems).loyaltyPoints
            + (if order.status == "delivered" then 150 else 100)
  {
    Seqs.FilterAppend(orders, [order], IsDelivered());
    assert Seqs.Filter([order], IsDelivered()) == if order.status == "delivered" then [order] else [];
  }

  // ---------------------------------------------------------------------
  // The e-mail check: /^[^\s@]+@[^\s@]+\.[^\s@]+$/

  /** A run of the class `[^\s@]`. */
  predicate PlainRun(t: string)
  {
    forall k :: 0 <= k < |t| ==> !IsSpace(t[k]) && t[k] != '@'
  }

  /**
   * The pattern matched with its `@` at `i` and its literal dot at `j`: the
   * three runs around them are non-empty and free of blanks and `@`.
   */
  ghost predicate EmailShapeAt(s: string, i: int, j: int)
  {
    && 0 < i && i + 1 < j && j + 1 < |s|
    && s[i] == '@' && s[j] == '.'
    && PlainRun(s[..i]) && PlainRun(s[i + 1..j]) && PlainRun(s[j + 1..])
  }

  /** What the e-mail pattern accepts. */
  ghost predicate MatchesEmailPattern(s: string)
  {
    exists i, j :: EmailShapeAt(s, i, j)
  }

  /** The first position holding `c`, if any. */
  function IndexOf(s: string, c: char): (r: Option<nat>)
    ensures r.None? <==> c !in s
    ensures r.Some? ==> r.value < |s| && s[r.value] == c && c !in s[..r.value]
  {
    if s == [] then None
    else if s[0] == c then Some(0)
    else
      var r := IndexOf(s[1..], c);
      if r.Some? then
        assert s[..r.value + 1] == [s[0]] + s[1..][..r.value];
        Some(r.value + 1)
      else r
  }

  /**
   * The same check written on characters: no blank anywhere, exactly one `@`
   * and not first, and a dot strictly inside the part after the `@`.
   */
  predicate IsValidEmail(s: string)
  {
    && (forall k :: 0 <= k < |s| ==> !IsSpace(s[k]))
    && match IndexOf(s, '@')
       case None => false
       case Some(at) =>
         var domain := s[at + 1..];
         && 0 < at
         && '@' !in domain
         && |domain| >= 3 && '.' in domain[1..|domain| - 1]
  }

  /** The character-level check accepts exactly what the pattern accepts. */
  lemma EmailCheckMatchesPattern(s: string)
    ensures IsValidEmail(s) <==> MatchesEmailPattern(s)
  {
    if IsValidEmail(s) {
      EmailCheckSound(s);
    }
    if MatchesEmailPattern(s) {
      EmailCheckComplete(s);
    }
  }

  /** What the character-level check accepts, the pattern accepts. */
  lemma EmailCheckSound(s: string)
    requires IsValidEmail(s)
    ensures MatchesEmailPattern(s)
  {
    var at := IndexOf(s, '@').value;
    var domain := s[at + 1..];
    var inner := domain[1..|domain| - 1];
    var m :| 0 <= m < |inner| && inner[m] == '.';
    var j := at + 2 + m;
    assert s[j] == '.';
    assert PlainRun(s[..at]);
    assert s[at + 1..j] == domain[..m + 1];
    assert s[j + 1..] == domain[m + 2..];
    assert EmailShapeAt(s, at, j);
  }

  /** What the pattern accepts, the character-level check accepts. */
  lemma EmailCheckComplete(s: string)
    requires MatchesEmailPattern(s)
    ensures IsValidEmail(s)
  {
    var i, j :| EmailShapeAt(s, i, j);
    forall k | 0 <= k < |s| ensures !IsSpace(s[k]) && (k != i ==> s[k] != '@') {
      if k < i {
        assert s[k] == s[..i][k];
      } else if i < k < j {
        assert s[k] == s[i + 1..j][k - i - 1];
      } else if j < k {
        assert s[k] == s[j + 1..][k - j - 1];
      }
    }
    assert '@' !in s[..i];
    assert IndexOf(s, '@') == Some(i);
    var domain := s[i + 1..];
    assert '@' !in domain;
    assert domain[1..|domain| - 1][j - i - 2] == '.';
  }

  // ---------------------------------------------------------------------
  // The phone check: /^[\+]?[0-9\s\-\(\)]+$/

  /** The class `[0-9\s\-\(\)]`. */
  predicate IsPhoneChar(c: char)
  {
    IsDigit(c) || IsSpace(c) || c == '-' || c == '(' || c == ')'
  }

  /** The pattern matched with `p` leading `+` signs (none or one). */
  ghost predicate PhoneShapeAt(s: string, p: int)
  {
    && 0 <= p <= 1 && p < |s|
    && (p == 1 ==> s[0] == '+')
    && forall k :: p <= k < |s| ==> IsPhoneChar(s[k])
  }

  /** What the phone pattern accepts. */
  ghost predicate MatchesPhonePattern(s: string)
  {
    exists p :: PhoneShapeAt(s, p)
  }

  predicate AllPhoneChars(t: string)
  {
    forall k :: 0 <= k < |t| ==> IsPhoneChar(t[k])
  }

  /** The same check on characters: an optional `+`, then at least one phone character. */
  predicate IsValidPhone(s: string)
  {
    var digits := if |s| > 0 && s[0] == '+' then s[1..] else s;
    |digits| > 0 && AllPhoneChars(digits)
  }

  /** The character-level check accepts exactly what the pattern accepts. */
  lemma PhoneCheckMatchesPattern(s: string)
    ensures IsValidPhone(s) <==> MatchesPhonePattern(s)
  {
    if IsValidPhone(s) {
      var digits := if |s| > 0 && s[0] == '+' then s[1..] else s;
      assert |digits| > 0 && AllPhoneChars(digits);
      var p := if s[0] == '+' then 1 else 0;
      forall k | p <= k < |s| ensures IsPhoneChar(s[k]) {
        assert s[k] == digits[k - p];
      }
      assert PhoneShapeAt(s, p);
    }
    if MatchesPhonePattern(s) {
      var p :| PhoneShapeAt(s, p);
      if p == 1 {
        forall k | 0 <= k < |s[1..]| ensures IsPhoneChar(s[1..][k]) {
          assert s[1..][k] == s[k + 1];
        }
        assert AllPhoneChars(s[1..]);
      } else {
        assert IsPhoneChar(s[0]);
        assert AllPhoneChars(s);
      }
    }
  }

  /** The phone is optional: an empty one is accepted. */
  predicate PhoneAccepted(phone: string)
  {
    phone == "" || IsValidPhone(phone)
  }

  /** The checks of `handleSaveChanges`, e-mail first. */
  function ProfileError(edited: User): (r: Option<string>)
    ensures !MatchesEmailPattern(edited.email) ==> r == Some("Please enter a valid email address")
    ensures MatchesEmailPattern(edited.email) && edited.phone != "" && !MatchesPhonePattern(edited.phone)
      ==> r == Some("Please enter a valid phone number")
    ensures r == None <==>
      MatchesEmailPattern(edited.email) && (edited.phone == "" || MatchesPhonePattern(edited.phone))
  {
    EmailCheckMatchesPattern(edited.email);
    PhoneCheckMatchesPattern(edited.phone);
    if !IsValidEmail(edited.email) then Some("Please enter a valid email address")
    else if !PhoneAccepted(edited.phone) then Some("Please enter a valid phone number")
    else None
  }

  // ---------------------------------------------------------------------
  // Password change

  datatype PasswordData = PasswordData(currentPassword: string, newPassword: string, confirmPassword: string)

  const EmptyPasswordData := PasswordData("", "", "")

  /** The checks of this page's `handlePasswordChange`: mismatch first, then a minimum of 6. */
  function PasswordChangeError(data: PasswordData): (r: Option<string>)
    ensures data.newPassword != data.confirmPassword ==> r == Some("New passwords do not match")
    ensures data.newPassword == data.confirmPassword && |data.newPassword| < 6
      ==> r == Some("Password must be at least 6 characters long")
    ensures r == None <==> data.newPassword == data.confirmPassword && |data.newPassword| >= 6
  {
    if data.newPassword != data.confirmPassword then Some("New passwords do not match")
    else if |data.newPassword| < 6 then Some("Password must be at least 6 characters long")
    else None
  }

  // ---------------------------------------------------------------------
  // Show/hide toggles

  datatype PasswordField = Current | NewPassword | Confirm

  /** Which password fields are shown in clear; `newPassword` is the source's `new`. */
  datatype Visibility = Visibility(current: bool, newPassword: bool, confirm: bool)

  const AllHidden := Visibility(false, false, false)

  function Shown(v: Visibility, f: PasswordField): bool
  {
    match f
    case Current => v.current
    case NewPassword => v.newPassword
    case Confirm => v.confirm
  }

  /** `{ ...prev, [field]: !prev[field] }`: flips one field and no other. */
  function Flip(v: Visibility, f: PasswordField): (r: Visibility)
    ensures Shown(r, f) == !Shown(v, f)
    ensures forall g :: g != f ==> Shown(r, g) == Shown(v, g)
  {
    match f
    case Current => v.(current := !v.current)
    case NewPassword => v.(newPassword := !v.newPassword)
    case Confirm => v.(confirm := !v.confirm)
  }

  /** Flipping the same field twice restores the toggles. */
  lemma FlipTwice(v: Visibility, f: PasswordField)
    ensures Flip(Flip(v, f), f) == v
  {
  }

  // ---------------------------------------------------------------------
  // The page's state

  /** The component state the handlers update. */
  class ProfilePage {
    var user: User
    var editedUser: User
    var isEditing: bool
    var isChangingPassword: bool
    var showPassword: Visibility
    var passwordData: PasswordData

    /** The state after the stored user has been loaded. */
    constructor (loaded: User)
      ensures user == loaded && editedUser == loaded
      ensures !isEditing && !isChangingPassword
      ensures showPassword == AllHidden && passwordData == EmptyPasswordData
    {
      user := loaded;
      editedUser := loaded;
      isEditing := false;
      isChangingPassword := false;
      showPassword := AllHidden;
      passwordData := EmptyPasswordData;
    }

    /**
     * `handleSaveChanges`: a bad e-mail or a bad non-empty phone is reported
     * and nothing is stored or changed; otherwise the edited profile is
     * stored as the current user and becomes the shown one.
     */
    method HandleSaveChanges(storage: LocalStorage) returns (r: Result<string, string>)
      modifies this, storage
      ensures var check := ProfileError(old(editedUser));
        && (check.Some? ==> r == Failure(check.value) && unchanged(this)
                             && storage.entries == old(storage.entries))
        && (check.None? ==>
              && r == Success("Profile updated successfully")
              && storage.entries == old(storage.entries)[CurrentUserKey := UserJson(old(editedUser))]
              && user == editedUser == old(editedUser) && !isEditing
              && isChangingPassword == old(isChangingPassword)
              && showPassword == old(showPassword) && passwordData == old(passwordData))
    {
      var check := ProfileError(editedUser);
      if check.Some? {
        return Failure(check.value);
      }
      storage.SetItem(CurrentUserKey, UserJson(editedUser));
      user := editedUser;
      isEditing := false;
      r := Success("Profile updated successfully");
    }

    /**
     * `handlePasswordChange`: a mismatch or a short password is reported and
     * nothing changes; otherwise the three fields are emptied, the form is
     * closed and every field is hidden again.
     */
    method HandlePasswordChange() returns (r: Result<string, string>)
      modifies this
      ensures var check := PasswordChangeError(old(passwordData));
        && (check.Some? ==> r == Failure(check.value) && unchanged(this))
        && (check.None? ==>
              && r == Success("Password changed successfully")
              && passwordData == EmptyPasswordData && !isChangingPassword
              && showPassword == AllHidden
              && user == old(user) && editedUser == old(editedUser) && isEditing == old(isEditing))
    {
      var check := PasswordChangeError(passwordData);
      if check.Some? {
        return Failure(check.value);
      }
      passwordData := EmptyPasswordData;
      isChangingPassword := false;
      showPassword := AllHidden;
      r := Success("Password changed successfully");
    }

    /**
     * `handleCancelEdit`: drops the edits, closes both forms, empties the
     * password fields and hides them all; the shown user is kept.
     */
    method HandleCancelEdit()
      modifies this
      ensures !isEditing && editedUser == old(user) && user == old(user)
      ensures !isChangingPassword
      ensures passwordData == EmptyPasswordData && showPassword == AllHidden
    {
      isEditing := false;
      editedUser := user;
      isChangingPassword := false;
      passwordData := EmptyPasswordData;
      showPassword := AllHidden;
    }

    /** `togglePasswordVisibility`: flips one field's visibility and nothing else. */
    method TogglePasswordVisibility(field: PasswordField)
      modifies this
      ensures showPassword == Flip(old(showPassword), field)
      ensures Shown(showPassword, field) == !old(Shown(showPassword, field))
      ensures user == old(user) && editedUser == old(editedUser)
      ensures isEditing == old(isEditing) && isChangingPassword == old(isChangingPassword)
      ensures passwordData == old(passwordData)
    {
      showPassword := Flip(showPassword, field);
    }
  }
}
