/**
 * The identity helpers: employees sign in with an employee id that is mapped to an internal e-mail
 * address `<id>@omi.local`, and admins are the employee ids listed, comma-separated, in the
 * `NEXT_PUBLIC_ADMIN_EMPLOYEE_IDS` setting (`adminSetting`, the empty string when it is unset).
 */
module AuthUtils {
  import opened Wrappers
  import opened Text

  const EmailDomain: string := "omi.local"

  /** `employeeIdToEmail`: the id, an `@`, then the internal domain. */
  function EmployeeIdToEmail(employeeId: string): (email: string)
    ensures |email| == |employeeId| + 1 + |EmailDomain|
    ensures email[..|employeeId|] == employeeId && email[|employeeId|] == '@'
    ensures email[|employeeId| + 1..] == EmailDomain
  {
    employeeId + "@" + EmailDomain
  }

  /** `emailToEmployeeId`: `const [id, domain] = email.split("@")`; the id when `domain` is the internal
    * domain, otherwise `null` (also when there is no `@`, so that `domain` is `undefined`). */
  function EmailToEmployeeId(email: Option<string>): (r: Option<string>)
    ensures email.None? || email.value == "" ==> r.None?
    ensures r.Some? ==> '@' !in r.value
  {
    if email.None? || email.value == "" then None
    else
      var parts := Split(email.value, '@');
      if |parts| < 2 || parts[1] != EmailDomain then None else Some(parts[0])
  }

  /** The first piece `split(sep)` returns: all of `s`, or what precedes the first separator. */
  lemma SplitHead(s: string, sep: char)
    ensures sep !in s ==> Split(s, sep)[0] == s
    ensures sep in s ==> Split(s, sep)[0] == s[..IndexOf(s, sep)]
  {
  }

  /** An address without `@` has no employee id. */
  lemma NoAtNoId(email: string)
    requires '@' !in email
    ensures EmailToEmployeeId(Some(email)) == None
  {
  }

  /** When an address yields an id, the address is the id, `@omi.local`, and then nothing or another `@`. */
  lemma EmailToIdSound(email: string)
    requires EmailToEmployeeId(Some(email)).Some?
    ensures var id := EmailToEmployeeId(Some(email)).value;
      && |email| >= |id| + 1 + |EmailDomain|
      && email[..|id| + 1 + |EmailDomain|] == EmployeeIdToEmail(id)
      && (|email| == |id| + 1 + |EmailDomain| || email[|id| + 1 + |EmailDomain|] == '@')
  {
    SplitSecondSound(email, EmailDomain);
  }

  /** When the second `@`-piece of `email` is `d`, the address starts with the first piece, `@` and `d`,
    * followed by nothing or another `@`. */
  lemma SplitSecondSound(email: string, d: string)
    requires |Split(email, '@')| >= 2 && Split(email, '@')[1] == d
    ensures var id := Split(email, '@')[0];
      && |email| >= |id| + 1 + |d|
      && email[..|id| + 1 + |d|] == id + "@" + d
      && (|email| == |id| + 1 + |d| || email[|id| + 1 + |d|] == '@')
  {
    var i := IndexOf(email, '@');
    var t := email[i + 1..];
    SplitAt(email, '@');
    SplitHead(t, '@');
    var m := if '@' in t then IndexOf(t, '@') else |t|;
    assert d == t[..m];
    SliceAround(email, i, m);
  }

  /** The first `i + 1 + m` elements: those before `i`, the one at `i`, and `m` after it. */
  lemma SliceAround<T>(s: seq<T>, i: nat, m: nat)
    requires i + 1 + m <= |s|
    ensures s[..i + 1 + m] == s[..i] + [s[i]] + s[i + 1..][..m]
  {
  }

  /** Conversely, every address of that form yields the id. */
  lemma EmailToIdComplete(id: string, rest: string)
    requires '@' !in id
    requires rest == [] || rest[0] == '@'
    ensures EmailToEmployeeId(Some(EmployeeIdToEmail(id) + rest)) == Some(id)
  {
    assert '@' !in EmailDomain;
    SplitJoinedSecond(id, EmailDomain, rest);
    assert EmployeeIdToEmail(id) + rest == id + "@" + EmailDomain + rest;
  }

  /** Splitting `id@d` followed by nothing or an `@` on `@` gives `id` and then `d`. */
  lemma SplitJoinedSecond(id: string, d: string, rest: string)
    requires '@' !in id && '@' !in d
    requires rest == [] || rest[0] == '@'
    ensures var parts := Split(id + "@" + d + rest, '@');
      |parts| >= 2 && parts[0] == id && parts[1] == d
  {
    var email := id + "@" + d + rest;
    assert email[|id|] == '@';
    assert email[..|id|] == id;
    IndexOfFirst(email, '@', |id|);
    var t := email[|id| + 1..];
    assert t == d + rest;
    if rest == [] {
      assert '@' !in t;
    } else {
      assert t[|d|] == '@';
      assert t[..|d|] == d;
      IndexOfFirst(t, '@', |d|);
    }
    SplitHead(t, '@');
    assert Split(email, '@') == [id] + Split(t, '@');
  }

  /** The round trip of the sign-in form: an employee id without `@` comes back from its address. */
  lemma EmailRoundTrip(id: string)
    requires '@' !in id
    ensures EmailToEmployeeId(Some(EmployeeIdToEmail(id))) == Some(id)
  {
    EmailToIdComplete(id, []);
    assert EmployeeIdToEmail(id) + [] == EmployeeIdToEmail(id);
  }

  /** The admin list: the comma-separated entries of the setting, each trimmed. */
  function AdminIds(adminSetting: string): (ids: seq<string>)
    ensures |ids| == |Split(adminSetting, ',')|
    ensures forall k :: 0 <= k < |ids| ==> ids[k] == Trim(Split(adminSetting, ',')[k])
  {
    var parts := Split(adminSetting, ',');
    seq(|parts|, k requires 0 <= k < |parts| => Trim(parts[k]))
  }

  /** `isAdmin`. */
  predicate IsAdmin(adminSetting: string, employeeId: string) {
    employeeId in AdminIds(adminSetting)
  }

  /** With the setting unset the list is `[""]`: only the empty id counts as admin. */
  lemma UnsetAdminList(employeeId: string)
    ensures IsAdmin("", employeeId) <==> employeeId == ""
  {
    assert Split("", ',') == [""];
    assert Trim("") == "";
    assert AdminIds("") == [""];
  }

  /** A setting written as the comma-joined list of trimmed, comma-free ids makes exactly those ids admins. */
  lemma AdminListIff(ids: seq<string>, x: string)
    requires |ids| >= 1
    requires forall k :: 0 <= k < |ids| ==> ',' !in ids[k] && Trim(ids[k]) == ids[k]
    ensures IsAdmin(Join(ids, ','), x) <==> x in ids
  {
    SplitJoin(ids, ',');
    assert AdminIds(Join(ids, ',')) == ids;
  }

  /** An admin id never has white space at either end and never holds a comma. */
  lemma AdminIdShape(adminSetting: string, employeeId: string)
    requires IsAdmin(adminSetting, employeeId)
    ensures Trim(employeeId) == employeeId && ',' !in employeeId
  {
    var parts := Split(adminSetting, ',');
    var k :| 0 <= k < |parts| && AdminIds(adminSetting)[k] == employeeId;
    TrimIdempotent(parts[k]);
  }
}
