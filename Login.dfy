/**
 * The OTP login modal: the email step (`sendOtp`), the code step
 * (`verifyOtp`) and the sanitiser of the code field.
 *
 * Each `fetch` is an input: it answered with a JSON body, or it (or
 * `res.json()`) rejected with a message. `Date.now()` is an input.
 */
module Login {
  import opened JsString
  import Json
  import Storage

  const ApiBase: string := "http://localhost:5000"
  const SendOtpUrl: string := ApiBase + "/auth/send-otp"
  const VerifyOtpUrl: string := ApiBase + "/auth/verify-otp"
  const SendFailed: string := "Failed to send OTP"
  const VerifyFailed: string := "Invalid OTP"
  const OtpLength: nat := 6

  datatype Fetch = Answered(ok: bool, body: Json.Json) | Threw(message: string)

  /** A post the modal made: its URL and its JSON body text. */
  datatype Post = Post(url: string, body: string)

  /** The callbacks a successful verification makes, in order. */
  datatype Event = LoginSuccess | Close

  /** The message of the `TypeError` a property read of `null` throws. */
  function NullRead(key: string): string {
    "Cannot read properties of null (reading '" + key + "')"
  }

  /** `err.message` for a non-2xx answer: `data.message || fallback`. */
  function FailureMessage(body: Json.Json, fallback: string): (r: string)
    ensures body.Obj? && Json.Property(body, "message").None? ==> r == fallback
    ensures body.Obj? && Json.Property(body, "message") == Some(Json.Str("")) ==> r == fallback
    ensures forall t :: body.Obj? && Json.Property(body, "message") == Some(Json.Str(t)) && t != "" ==> r == t
  {
    if body.Null? then NullRead("message")
    else
      match Json.Property(body, "message")
      case Some(m) => if Json.Truthy(m) then Json.StringOf(m) else fallback
      case None => fallback
  }

  // ---------------------------------------------------------------------
  // The code field
  // ---------------------------------------------------------------------

  /** `s.replace(/\D/g, '')`. */
  function Digits(s: string): (r: string)
    ensures AllDigits(r) && |r| <= |s|
    decreases |s|
  {
    if s == [] then []
    else (if IsDigit(s[0]) then [s[0]] else []) + Digits(s[1..])
  }

  /** The code field's `onChange`: `value.replace(/\D/g, '').slice(0, 6)`. */
  function SanitizeOtp(s: string): (r: string)
    ensures AllDigits(r) && |r| <= OtpLength
  {
    var d := Digits(s);
    if |d| <= OtpLength then d else d[..OtpLength]
  }

  /** Dropping non-digits acts piece by piece: the digits of a text are the
      digits of its parts, in their order. */
  lemma {:induction false} DigitsAppend(a: string, b: string)
    ensures Digits(a + b) == Digits(a) + Digits(b)
    decreases |a|
  {
    if a != [] {
      assert (a + b)[1..] == a[1..] + b;
      DigitsAppend(a[1..], b);
    } else {
      assert a + b == b;
    }
  }

  lemma {:induction false} DigitsOfDigits(s: string)
    requires AllDigits(s)
    ensures Digits(s) == s
    decreases |s|
  {
    if s != [] {
      DigitsOfDigits(s[1..]);
      assert [s[0]] + s[1..] == s;
    }
  }

  /** Dropping non-digits keeps every digit unit of the text, as often as
      it occurs there, and nothing else. */
  lemma {:induction false} DigitsCounts(s: string)
    ensures forall c :: multiset(Digits(s))[c] == if IsDigit(c) then multiset(s)[c] else 0
    decreases |s|
  {
    if s != [] {
      DigitsCounts(s[1..]);
      assert s == [s[0]] + s[1..];
    }
  }

  /** The first `n` digits of a text are the digits of one of its prefixes. */
  lemma {:induction false} PrefixDigits(s: string, n: nat)
    requires n <= |Digits(s)|
    ensures exists k :: 0 <= k <= |s| && Digits(s[..k]) == Digits(s)[..n]
    decreases |s|
  {
    if n == 0 {
      assert Digits(s[..0]) == Digits(s)[..0];
    } else if IsDigit(s[0]) {
      PrefixDigits(s[1..], n - 1);
      var k :| 0 <= k <= |s[1..]| && Digits(s[1..][..k]) == Digits(s[1..])[..n - 1];
      var p := s[..k + 1];
      assert p[0] == s[0] && p[1..] == s[1..][..k];
      assert Digits(s)[..n] == [s[0]] + Digits(s[1..])[..n - 1];
      assert Digits(p) == Digits(s)[..n];
    } else {
      PrefixDigits(s[1..], n);
      var k :| 0 <= k <= |s[1..]| && Digits(s[1..][..k]) == Digits(s[1..])[..n];
      var p := s[..k + 1];
      assert p[0] == s[0] && p[1..] == s[1..][..k];
      assert Digits(p) == Digits(s)[..n];
    }
  }

  /** The field keeps the digits of some prefix of the input, and that prefix
      is the whole digit content unless six digits were already reached. */
  lemma SanitizeIsFirstDigits(s: string)
    ensures exists k ::
      && 0 <= k <= |s|
      && SanitizeOtp(s) == Digits(s[..k])
      && (|SanitizeOtp(s)| < OtpLength ==> Digits(s[k..]) == [])
  {
    var d := Digits(s);
    if |d| <= OtpLength {
      assert s[..|s|] == s && s[|s|..] == [];
      assert SanitizeOtp(s) == Digits(s[..|s|]) && Digits(s[|s|..]) == [];
    } else {
      PrefixDigits(s, OtpLength);
    }
  }

  /** Sanitising twice is sanitising once. */
  lemma SanitizeIdempotent(s: string)
    ensures SanitizeOtp(SanitizeOtp(s)) == SanitizeOtp(s)
  {
    DigitsOfDigits(SanitizeOtp(s));
  }

  /** The sanitiser leaves a text alone exactly when it is at most six digits. */
  lemma SanitizeFixedPoints(s: string)
    ensures SanitizeOtp(s) == s <==> AllDigits(s) && |s| <= OtpLength
  {
    if AllDigits(s) && |s| <= OtpLength {
      DigitsOfDigits(s);
    }
  }

  /** Typing `t` after an already sanitised field gives what sanitising the
      whole input would: keystrokes can be sanitised one at a time. */
  lemma SanitizeIncremental(s: string, t: string)
    ensures SanitizeOtp(SanitizeOtp(s) + t) == SanitizeOtp(s + t)
  {
    var d := Digits(s);
    DigitsAppend(s, t);
    DigitsAppend(SanitizeOtp(s), t);
    DigitsOfDigits(SanitizeOtp(s));
    if |d| > OtpLength {
      var all := d + Digits(t);
      assert all[..OtpLength] == d[..OtpLength];
      var short := d[..OtpLength] + Digits(t);
      assert short[..OtpLength] == d[..OtpLength];
    }
  }

  // ---------------------------------------------------------------------
  // The modal
  // ---------------------------------------------------------------------

  /** `JSON.stringify({ email, loggedInAt: Date.now() })`. */
  function UserRecord(email: string, now: int): Json.Json {
    Json.Obj([Json.Member("email", Json.Str(email)), Json.Member("loggedInAt", Json.Num(now))])
  }

  class LoginModal {
    var email: string
    var otp: string
    var otpSent: bool
    var loading: bool
    var error: Option<string>

    constructor ()
      ensures email == "" && otp == "" && !otpSent && !loading && error == None
    {
      email := "";
      otp := "";
      otpSent := false;
      loading := false;
      error := None;
    }

    method OnEmailChange(value: string)
      modifies this
      ensures email == value
      ensures otp == old(otp) && otpSent == old(otpSent) && loading == old(loading) && error == old(error)
    {
      email := value;
    }

    method OnOtpChange(value: string)
      modifies this
      ensures otp == SanitizeOtp(value)
      ensures email == old(email) && otpSent == old(otpSent) && loading == old(loading) && error == old(error)
    {
      otp := SanitizeOtp(value);
    }

    /** `sendOtp`: nothing with an empty email or while loading; otherwise
        the post, then `otpSent` on a 2xx answer or the error message. */
    method SendOtp(fetch: Fetch) returns (post: Option<Post>)
      modifies this
      ensures email == "" || old(loading) ==> post == None && unchanged(this)
      ensures email != "" && !old(loading) ==>
        && post == Some(Post(SendOtpUrl, Json.Stringify(Json.Obj([Json.Member("email", Json.Str(email))]))))
        && !loading
        && email == old(email) && otp == old(otp)
        && otpSent == (old(otpSent) || (fetch.Answered? && fetch.ok))
        && error == (match fetch
                     case Threw(m) => Some(m)
                     case Answered(ok, body) => if ok then None else Some(FailureMessage(body, SendFailed)))
    {
      if email == "" || loading {
        return None;
      }
      loading := true;
      error := None;
      post := Some(Post(SendOtpUrl, Json.Stringify(Json.Obj([Json.Member("email", Json.Str(email))]))));
      match fetch {
        case Threw(m) =>
          error := Some(m);
        case Answered(ok, body) =>
          if !ok {
            error := Some(FailureMessage(body, SendFailed));
          } else {
            otpSent := true;
          }
      }
      loading := false;
    }

    /** `verifyOtp`: nothing unless the code has six units and nothing is
        loading; otherwise the post, and on a 2xx answer the two store
        writes and the two callbacks. */
    method VerifyOtp(store: Storage.LocalStorage, fetch: Fetch, now: int)
      returns (post: Option<Post>, events: seq<Event>)
      modifies this, store
      ensures |old(otp)| != OtpLength || old(loading) ==>
        post == None && events == [] && unchanged(this) && store.items == old(store.items)
      ensures |old(otp)| == OtpLength && !old(loading) ==>
        && post == Some(Post(VerifyOtpUrl, Json.Stringify(Json.Obj(
             [Json.Member("email", Json.Str(email)), Json.Member("otp", Json.Str(otp))]))))
        && !loading
        && email == old(email) && otp == old(otp) && otpSent == old(otpSent)
      ensures |old(otp)| == OtpLength && !old(loading) && fetch.Answered? && fetch.ok && !fetch.body.Null? ==>
        && store.items == old(store.items)[Storage.TokenKey := Json.ItemText(Json.Property(fetch.body, "token"))]
                                          [Storage.UserKey := Json.Stringify(UserRecord(email, now))]
        && events == [LoginSuccess, Close]
        && error == None
      ensures |old(otp)| == OtpLength && !old(loading) && !(fetch.Answered? && fetch.ok && !fetch.body.Null?) ==>
        && store.items == old(store.items)
        && events == []
        && error == Some(match fetch
                         case Threw(m) => m
                         case Answered(ok, body) => if ok then NullRead("token") else FailureMessage(body, VerifyFailed))
    {
      events := [];
      if |otp| != OtpLength || loading {
        return None, [];
      }
      loading := true;
      error := None;
      post := Some(Post(VerifyOtpUrl, Json.Stringify(Json.Obj(
        [Json.Member("email", Json.Str(email)), Json.Member("otp", Json.Str(otp))]))));
      match fetch {
        case Threw(m) =>
          error := Some(m);
        case Answered(ok, body) =>
          if !ok {
            error := Some(FailureMessage(body, VerifyFailed));
          } else if body.Null? {
            error := Some(NullRead("token"));
          } else {
            store.SetItem(Storage.TokenKey, Json.ItemText(Json.Property(body, "token")));
            store.SetItem(Storage.UserKey, Json.Stringify(UserRecord(email, now)));
            events := [LoginSuccess, Close];
          }
      }
      loading := false;
    }
  }

  /** The user record written on success reads back as the email and the
      time of login. */
  lemma UserRecordRoundTrip(email: string, now: int)
    ensures Json.Parse(Json.Stringify(UserRecord(email, now))) == Some(UserRecord(email, now))
    ensures Json.Lookup(UserRecord(email, now).members, "email") == Some(Json.Str(email))
  {
    Json.RoundTrip(UserRecord(email, now));
  }
}
