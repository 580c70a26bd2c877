# Rental management core, modelled in Dafny

This project models the stateful and decision-making core of a Django
rental-management application. The application keeps properties, their
rental units, tenants and a ledger of payments. Tenants pay rent through
M-Pesa, a mobile-money service.

The model covers:

- **STK push preparation** (`mpesa_stk_push`). The view checks the request,
  rewrites the payer's phone number into the Kenyan `254…` form, truncates
  the amount and rejects amounts below 1. It then builds the record that
  would be handed to the M-Pesa client (`stk_push.dfy`).
- **The M-Pesa result callback** (`mpesa_callback`). On result code 0 it
  scans the metadata items, and the last item of each name wins. It picks
  the first tenant, in tenant order, whose phone ends with the last nine
  characters of the payer's number. It then appends at most one completed
  rent payment to the ledger and always acknowledges (`callback.dfy`).
- **The store** (`store.dfy`). This is a class holding properties, units,
  tenants and payments. It enforces these rules:
  - the occupancy flag that `Unit.save` recomputes;
  - the uniqueness declarations;
  - the declared delete policies: property→units cascade,
    unit→tenant set-null, tenant→payments cascade;
  - the unit synchronisation of the tenant create, update and delete views.
- **Derived values on the records** (`models.py`): the occupied and vacant
  counts, the zero-guarded occupancy rate, `full_name`, `property_name`, and
  the tenant ordering by (last name, first name) (`models.dfy`, `store.dfy`).
- **Decision functions**:
  - the `staff_required` guard;
  - the post-login routing `redirect_user_dashboard`;
  - the rule that a tenant may pay only for their own account;
  - the new-login-account checks of the tenant form (`access.dfy`);
  - the lease-status classification and the rent fallback of the tenant
    dashboard and the payment page (`dashboard.dfy`).

Python and Django semantics are written out wherever the views rely on them:

- **From Python**: `str.strip` uses the full `isspace` set; `s[-9:]` slicing;
  truthiness, where `0`, `""`, `None`, `False` and a zero `Decimal` are
  falsy; `str()` of JSON scalars; and `==`, under which `False == 0`
  (`text.dfy`, `pyvalue.dfy`; the zero-`Decimal` rule of the rent fallback
  is in `dashboard.dfy`).
- **Units**: money is an integer number of hundredths, because every amount
  is a `DecimalField` with two decimal places. Dates are day numbers.
- **Parameters**: the clock (`today`) and the set of existing usernames are
  passed in.

Two details of the callback, as the code has them:

- The callback records the payment method as `mpesa`.
- When an exception escapes, for example an amount that cannot be stored
  as a decimal, the callback answers with ResultCode 1
  (my_app/views.py:970-971).

## Model

| member | source | states |
|---|---|---|
| Text.Strip | my_app/views.py:874 | the result has no leading or trailing Python whitespace and is no longer than the input; only whitespace is removed at either end (TrimLeft/TrimRight) |
| Text.StripIdempotent | my_app/views.py:402 | stripping a stripped string changes nothing |
| Text.LastN | my_app/views.py:954 | `s[-n:]`: the last n characters, or all of s when it is shorter or n is 0; always a suffix of s |
| Text.IntToDecimalRoundTrip | my_app/views.py:883 | `str()` of an integer reads back as the same integer, for every integer; this is why an amount sent as the text of a whole number converts like the number itself |
| PyValue.PyStr | my_app/views.py:874 | `str()` of a text value is the text itself and of None is "None" |
| PyValue.WholeNumber | my_app/views.py:883 | an integer converts to itself and a missing value does not convert |
| PyValue.WholeNumberOfText | my_app/views.py:883 | an amount sent as the text of a whole number converts to the same amount as the number |
| StkPush.HttpStatus | my_app/views.py:860-926 | status 200 exactly when the request is dispatched and the provider call returns; every rejection is a 4xx or 5xx |
| StkPush.NationalPart | my_app/views.py:875-881 | the subscriber part is a suffix of the stripped number |
| StkPush.NormalizePhone | my_app/views.py:874-881 | the step-by-step rewriting equals `"254" + NationalPart(strip(raw))`, and the result always starts with 254 |
| StkPush.PreparePush | my_app/views.py:859-899 | 405 exactly for non-POST; "Missing required fields" exactly when a field is falsy; "at least 1" exactly when the truncated amount is below 1; dispatch exactly otherwise, with the normalised number, the truncated amount, `RENT-<id>`, `Rent Payment for Tenant <id>` and the fixed callback URL; an unconvertible amount or undecodable body is a 500 |
| StkPush.NormalizedTrimmed | my_app/views.py:874-881 | a normalised number never has surrounding whitespace |
| StkPush.NormalizedFixesNormal | my_app/views.py:880-881 | a stripped number that already starts with 254 is left unchanged |
| StkPush.NormalizeIdempotent | my_app/views.py:874-881 | normalising a normalised number gives it back |
| StkPush.TrunkZeroReplaced | my_app/views.py:875-876 | a leading 0 is replaced by 254 |
| StkPush.PlusDropped | my_app/views.py:877-881 | a leading + is dropped, and 254 is added only when it is then missing |
| StkPush.LocalFormExample | my_app/views.py:874-881 | "0712345678" becomes "254712345678" |
| StkPush.InternationalFormExample | my_app/views.py:874-881 | "+254712345678" becomes "254712345678" |
| StkPush.BareFormExample | my_app/views.py:874-881 | "712345678" becomes "254712345678" |
| Models.Saved | my_app/models.py:93-95 | after a save the flag equals (status == occupied); no other field changes |
| Models.SavedIgnoresFlag | my_app/models.py:93-95 | whatever the flag held before the save, the saved unit is the same |
| Models.FullNameDeterminesParts | my_app/models.py:135-137 | full_name is first name, a space, last name: for first names without spaces, equal full names mean equal parts |
| Models.TenantOrder | my_app/models.py:130 | ordering by (last_name, first_name) is irreflexive and transitive, and total up to equal names |
| Models.OccupiedUnits | my_app/models.py:38-40 | the occupied count never exceeds the property's unit rows |
| Models.VacantUnits | my_app/models.py:42-44 | the vacant count never exceeds the property's unit rows |
| Models.OccupiedPlusVacant | my_app/models.py:38-44 | occupied plus vacant units equals the property's unit rows |
| Models.OccupancyRate | my_app/models.py:46-50 | 0 when total_units is 0 (no division); never negative; 0 exactly when nothing is occupied or there is no declared total |
| Models.RateAtMostHundred | my_app/models.py:46-50 | the rate is at most 100 exactly when occupied units do not exceed the stored total_units |
| Models.RateCanExceedHundred | my_app/models.py:25 | total_units is not tied to the unit rows: two occupied units against a total of 1 give 200 |
| Store.DetachUnits | my_app/models.py:113 | SET_NULL: exactly the tenants of a removed unit lose their unit; the others are untouched and the order is kept |
| Store.DropPaymentsOf | my_app/models.py:165 | CASCADE: no payment of the removed tenant stays, every other payment stays, and nothing is added |
| Store.DropPaymentsOfFilters | my_app/models.py:165 | CASCADE is a filter: a payment of the removed tenant occurs 0 times afterwards, and every other payment occurs exactly as often as before, duplicates included |
| Store.UnitsAfterTenantSave | my_app/views.py:365-367 | an active tenant with a unit sets that unit to occupied through Unit.save; no other unit changes, including a unit the tenant held before |
| Store.Store.CreateProperty | my_app/views.py:107-120 | a fresh key holds the new property; nothing else changes |
| Store.Store.UpdateProperty | my_app/views.py:131-150 | a missing key is not found; otherwise only that property is replaced |
| Store.Store.DeleteProperty | my_app/views.py:154-164 | the property and all its units go (CASCADE), and their tenants lose their unit (SET_NULL); a missing key is not found |
| Store.Store.CreateUnit | my_app/views.py:210-222 | an unknown property or a duplicate (property, unit_number) is refused, each exactly when it applies; the unit is created exactly when both checks pass, and then the saved unit is added under a fresh key |
| Store.Store.UpdateUnit | my_app/views.py:234-249 | not found exactly for a missing key; the same checks, excluding the unit itself from the uniqueness check; the update succeeds exactly when the unit exists and both checks pass, and then only that unit is replaced by its saved form |
| Store.Store.DeleteUnit | my_app/views.py:253-262 | the unit goes, and no tenant refers to it any longer (SET_NULL) |
| Store.Store.CreateTenant | my_app/views.py:357-367 | an unknown unit, a taken email or an already-linked account is refused, each exactly when it applies; the tenant is saved exactly when all three checks pass, and then it is appended with a fresh id and the units follow UnitsAfterTenantSave |
| Store.Store.UpdateTenant | my_app/views.py:453-463 | not found exactly for a missing id; the same checks, excluding the tenant itself; for a stored tenant the update is saved exactly when all three checks pass, and then the tenant is replaced in place and the units follow UnitsAfterTenantSave |
| Store.Store.DeleteTenant | my_app/views.py:487-499 | the tenant's unit is saved as available first; then the tenant is removed and its payments go with it (CASCADE) |
| Store.Store.ReplaceTenantAt | my_app/views.py:459 | an edited tenant that passed the unit, email and account checks replaces only its own row, and every uniqueness rule still holds |
| Store.Store.InsertTenant | my_app/views.py:363 | a tenant that passed the unit, email and account checks is appended under an id no stored tenant has, and every uniqueness rule still holds |
| Store.Store.SetUnitStatus | my_app/views.py:366-367 | Unit.save of a new status replaces only that unit, with its occupied flag recomputed, and keeps unit numbers unique per property |
| Store.Store.RemoveTenantAt | my_app/views.py:495 | the tenant leaves the list, its id is gone, and its payments go with it (CASCADE) while the store stays consistent |
| Store.Store.AddPayment | my_app/views.py:957-966 | one payment is appended for an existing tenant and the earlier ledger is kept |
| Store.Store.PropertyName | my_app/models.py:139-143 | None exactly when the tenant has no unit, otherwise the name of the unit's property |
| Store.Store.PaymentPropertyName | my_app/models.py:186-191 | a payment's property name is that of its tenant |
| Store.Store.OccupancyRateOf | my_app/models.py:46-50 | the rate of a stored property is 0 when its total is 0, and is computed from the flags in the store |
| Store.RemovedTenantIds | my_app/views.py:495 | removing a tenant removes exactly its id and keeps ids, emails and account links unique |
| Store.ReplacedTenant | my_app/models.py:105-109 | replacing a tenant that passed the email and account checks keeps every uniqueness rule |
| Store.AppendedTenant | my_app/models.py:105-109 | appending a tenant with a new id, email and account adds exactly its id and keeps every uniqueness rule |
| Store.DetachKeeps | my_app/models.py:113 | detaching tenants from removed units keeps ids, emails and accounts, and leaves no tenant on a removed unit |
| Store.StatusChangeKeepsUnitRules | my_app/models.py:93-95 | changing a unit's status keeps the keys, the property links and unit-number uniqueness, and sets the flag from the new status |
| Store.OccupiedMeansStatus | my_app/models.py:93-95 | in a consistent store the occupied count is the number of units whose status is occupied |
| Access.StaffRequired | my_app/views.py:58-66 | anonymous users go to login, non-staff to access-denied, and the view runs exactly for authenticated staff or superusers |
| Access.LinkedTenant | my_app/views.py:48 | finds a tenant linked to the account exactly when one exists |
| Access.LinkedTenantIsTheLink | my_app/models.py:105 | with the one-to-one link, the tenant found is the one linked to the account |
| Access.RedirectUserDashboard | my_app/views.py:43-51 | managers go to the manager dashboard; a linked tenant goes to its own page; anyone else gets access-denied, exactly when unlinked |
| Access.GuardedUsersAreManagers | my_app/views.py:43-45 | every user the staff guard admits is routed to the manager dashboard |
| Access.TenantLandsOnOwnPage | my_app/views.py:47-49 | a linked tenant lands on its own page and no other |
| Access.MayPayForOwnOnly | my_app/views.py:842-845 | a non-manager may open the payment page exactly for the tenant linked to their account |
| Access.CheckNewAccount | my_app/views.py:320-343 | a blank username after strip, a taken username, a password under 8 characters and a mismatched confirmation are refused in that order, each exactly when it is the first to fail; otherwise the stripped username is created |
| Access.CreatedAccountIsFresh | my_app/views.py:327 | a created username is non-blank, stripped and not already taken |
| Dashboard.ClassifyLease | my_app/views.py:689-697 | no end date gives active with no day count; otherwise days = end − today, and the status is expired, expiring soon or active exactly when days < 0, 0 ≤ days ≤ 30 or days > 30 |
| Dashboard.LeaseStatusNeverReverts | my_app/views.py:689-697 | as today advances, a lease only moves from active to expiring soon to expired |
| Dashboard.RentAmount | my_app/views.py:712 | the tenant's own non-zero rent wins; otherwise the unit's rent; 0 exactly when neither gives a non-zero amount |
| Dashboard.TenantDashboard | my_app/views.py:657-666 | an authenticated user linked to a tenant is shown that tenant's page; otherwise a manager given a non-zero pk is shown the tenant with that id, or not found when there is none; every other user, and only those, is sent to the login page; a shown page carries that tenant's lease classification and rent |
| Dashboard.MpesaPaymentPage | my_app/views.py:839-855 | login required; an unknown tenant is not found; anyone not allowed to pay for the tenant is turned away; otherwise the form shows that tenant's rent |
| Dashboard.SameRentOnBothPages | my_app/views.py:848 | a tenant's dashboard and its payment page show the same rent |
| Callback.ResultCode | my_app/views.py:968-971 | the acknowledgement's ResultCode is 0 exactly on success, and 1 on a failure |
| Callback.HttpStatus | my_app/views.py:968-973 | 400 exactly for a non-POST request; every acknowledgement, success or failure, is sent with 200 |
| Callback.LastNamed | my_app/views.py:946-952 | the item found carries the name and no later item does; none is found exactly when no item carries it |
| Callback.LastOneWins | my_app/views.py:946-952 | a later item of a name overrides every earlier one |
| Callback.OtherNamesIgnored | my_app/views.py:946-952 | an item of another name does not change what a name reads as |
| Callback.LookupIsLastItem | my_app/views.py:942-952 | a name reads as the value of its last item, wherever that item is |
| Callback.ScanMetadata | my_app/views.py:942-952 | the loop leaves Amount, MpesaReceiptNumber and PhoneNumber at the value of the last item of each name, and None for an absent name |
| Callback.FirstMatch | my_app/views.py:954 | the chosen tenant's phone ends with the suffix; no tenant is chosen exactly when none matches |
| Callback.FirstMatchIsFirstInOrder | my_app/models.py:130 | no matching tenant comes before the chosen one in (last_name, first_name) order; an earlier-stored match comes strictly after it |
| Callback.CallbackEffect | my_app/views.py:939-966 | a payment is only ever written for an existing tenant |
| Callback.DecideEffect | my_app/views.py:939-966 | the view's step-by-step decision equals CallbackEffect |
| Callback.ApplyEffect | my_app/views.py:955-970 | the decided effect is carried out: an entry appends exactly that payment with ResultCode 0, no entry writes nothing with ResultCode 0, a raised error writes nothing with ResultCode 1 |
| Callback.HandleCallback | my_app/views.py:930-973 | non-POST gets a 400; an unreadable body gets ResultCode 1 with the error; otherwise the ledger gains exactly the payment CallbackEffect gives, or nothing; tenants, units and properties never change |
| Callback.EntryExactlyWhen | my_app/views.py:939-966 | a payment is written exactly when the result code equals 0, some tenant matches, and the amount is truthy and a number |
| Callback.EntryDescribesPayment | my_app/views.py:956-966 | the written payment is a completed M-Pesa rent payment dated today, whose amount in hundredths is 100 × the whole amount sent, with reference = receipt or "" and the checkout id in the description, for a matching tenant that no other match precedes |
| Callback.NothingWithoutSuccessOrMetadata | my_app/views.py:939-954 | a non-zero result code or empty metadata writes nothing |
| Callback.DeliveredTwice | my_app/views.py:956-966 | with no deduplication, a callback delivered twice appends the same payment twice |
| Callback.SuccessfulPaymentExample | my_app/views.py:939-966 | Amount 1500 from 254712345678 for the tenant stored as 0712345678 writes one completed M-Pesa rent payment of 1500.00 |

## Left out

- The M-Pesa client call and the inspection of its response (`my_app/views.py:888-918`) are foreign code over the network. A request that passes every check ends in `Dispatch` with the record that would be sent.
- StkPush.HttpStatus: `Dispatch` stands for a provider call that returned. A client import or call that raises (`my_app/views.py:864`, `888`, `893-899`) is answered with 500 (`my_app/views.py:920-926`) and is not represented.
- `json.loads` is not modelled. Request bodies arrive already decoded, as JSON scalars (`Value`) in fixed fields. A body that fails to decode, or whose envelope is not made of objects, is `Undecodable` or `Unreadable`.
- Callback metadata items that are not JSON objects are not represented. In the view, `.get` on such an item raises, and the answer is ResultCode 1.
- Nested JSON arrays or objects used as values are not represented.
- JSON floats are not represented.
- PyValue.WholeNumber: accepts only integer literals in ASCII digits (after strip) as text. `float()` and `Decimal` also accept fractions, exponents, underscores and non-ASCII decimal digits (such as Arabic-Indic digits). The model treats such text as a conversion failure: a 500 for the push request, ResultCode 1 for the callback.
- PyValue.WholeNumber: does not model that `int(float(x))` loses precision for integers beyond 2^53.
- The exact `str()` text of Django's validation error is not reproduced (`Callback.InvalidAmountMessage` stands in for it).
- Models.OccupancyRate: the rounding to one decimal place is not modelled. The rate is exact.
- `DecimalField(max_digits=10)` overflow is not modelled.
- The list, search and report views and their ORM aggregation are not modelled. This includes `icontains`, `Sum` and `TruncMonth`.
- The payment create, update and delete forms are not modelled; only appending to the ledger is.
- The GET confirmation and detail pages are not modelled.
- Authentication, sessions, password hashing and `create_user` are not modelled. Existing usernames are an abstract set.
- The `login_required` wrapper of `mpesa_stk_push` is not modelled.
- Messages, templates and redirects are not modelled beyond the outcome they stand for. The same goes for the forms' field validation, the admin and the URL table.
- Form validation beyond the foreign keys and the declared uniqueness (field lengths, email syntax) is not modelled.
- Concurrency and transactions are not modelled. The callback is a single sequential step.
- String order is by code point. The database's collation is not modelled.
- Suffix matching is case-sensitive. SQLite's case-insensitive `LIKE` would only differ for phone numbers that contain letters.
- Callback.FirstMatch: among tenants with equal names, the database leaves the order open. The model fixes it to the earliest stored tenant.
- `Unit.save` is modelled as the value the store writes back (`Models.Saved`). This is because units are values kept in the store's map.
