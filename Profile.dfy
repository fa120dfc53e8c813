/**
 * The profile sidebar: a record of fifteen text fields kept in component
 * state, restored from and saved to `mediro-profile`, with a country
 * select that also fills in the dial code.
 *
 * `window.confirm` is an input; `alert` is left out.
 */
module Profile {
  import opened JsString
  import Json
  import Storage

  datatype Profile = Profile(
    name: string, age: string, gender: string, email: string, phone: string,
    bloodType: string, height: string, weight: string, country: string,
    countryCode: string, state: string, conditions: string, allergies: string,
    medications: string, emergencyContact: string)

  /** The record's fields, in the order the default record lists them. */
  datatype Field =
    | Name | Age | Gender | Email | Phone | BloodType | Height | Weight | Country
    | CountryCode | State | Conditions | Allergies | Medications | EmergencyContact

  const FieldCount: nat := 15

  /** The fields by position. */
  function FieldAt(i: nat): Field
    requires i < FieldCount
  {
    match i
    case 0 => Name
    case 1 => Age
    case 2 => Gender
    case 3 => Email
    case 4 => Phone
    case 5 => BloodType
    case 6 => Height
    case 7 => Weight
    case 8 => Country
    case 9 => CountryCode
    case 10 => State
    case 11 => Conditions
    case 12 => Allergies
    case 13 => Medications
    case _ => EmergencyContact
  }

  function Position(f: Field): (r: nat)
    ensures r < FieldCount && FieldAt(r) == f
  {
    match f
    case Name => 0
    case Age => 1
    case Gender => 2
    case Email => 3
    case Phone => 4
    case BloodType => 5
    case Height => 6
    case Weight => 7
    case Country => 8
    case CountryCode => 9
    case State => 10
    case Conditions => 11
    case Allergies => 12
    case Medications => 13
    case EmergencyContact => 14
  }

  /** The property name of a field in the stored JSON. */
  function Key(f: Field): string {
    match f
    case Name => "name"
    case Age => "age"
    case Gender => "gender"
    case Email => "email"
    case Phone => "phone"
    case BloodType => "bloodType"
    case Height => "height"
    case Weight => "weight"
    case Country => "country"
    case CountryCode => "countryCode"
    case State => "state"
    case Conditions => "conditions"
    case Allergies => "allergies"
    case Medications => "medications"
    case EmergencyContact => "emergencyContact"
  }

  /** `profile[key]`. */
  function Get(p: Profile, f: Field): string {
    match f
    case Name => p.name
    case Age => p.age
    case Gender => p.gender
    case Email => p.email
    case Phone => p.phone
    case BloodType => p.bloodType
    case Height => p.height
    case Weight => p.weight
    case Country => p.country
    case CountryCode => p.countryCode
    case State => p.state
    case Conditions => p.conditions
    case Allergies => p.allergies
    case Medications => p.medications
    case EmergencyContact => p.emergencyContact
  }

  /** `{ ...profile, [key]: v }`: that field becomes `v`, every other field
      keeps its value. */
  function With(p: Profile, f: Field, v: string): (r: Profile)
    ensures forall g :: Get(r, g) == if g == f then v else Get(p, g)
  {
    match f
    case Name => p.(name := v)
    case Age => p.(age := v)
    case Gender => p.(gender := v)
    case Email => p.(email := v)
    case Phone => p.(phone := v)
    case BloodType => p.(bloodType := v)
    case Height => p.(height := v)
    case Weight => p.(weight := v)
    case Country => p.(country := v)
    case CountryCode => p.(countryCode := v)
    case State => p.(state := v)
    case Conditions => p.(conditions := v)
    case Allergies => p.(allergies := v)
    case Medications => p.(medications := v)
    case EmergencyContact => p.(emergencyContact := v)
  }

  /** The fields with a text input or select of their own. The country goes
      through `handleCountryChange`, and the dial code is read-only. */
  predicate Editable(f: Field) {
    f != Country && f != CountryCode
  }

  /** The record used when nothing is stored, and after a delete. */
  function DefaultProfile(): (r: Profile)
    ensures forall f :: Get(r, f) == if f == CountryCode then "+1" else ""
  {
    Profile("", "", "", "", "", "", "", "", "", "+1", "", "", "", "", "")
  }

  // ---------------------------------------------------------------------
  // Countries
  // ---------------------------------------------------------------------

  datatype CountryEntry = CountryEntry(name: string, code: string)

  /** The `countries` table, entry by entry. */
  const CountryCount: nat := 30

  function CountryAt(i: nat): CountryEntry
    requires i < CountryCount
  {
    match i
    case 0 => CountryEntry("United States", "+1")
    case 1 => CountryEntry("India", "+91")
    case 2 => CountryEntry("United Kingdom", "+44")
    case 3 => CountryEntry("Canada", "+1")
    case 4 => CountryEntry("Australia", "+61")
    case 5 => CountryEntry("Germany", "+49")
    case 6 => CountryEntry("France", "+33")
    case 7 => CountryEntry("Italy", "+39")
    case 8 => CountryEntry("Spain", "+34")
    case 9 => CountryEntry("Mexico", "+52")
    case 10 => CountryEntry("Brazil", "+55")
    case 11 => CountryEntry("Argentina", "+54")
    case 12 => CountryEntry("China", "+86")
    case 13 => CountryEntry("Japan", "+81")
    case 14 => CountryEntry("South Korea", "+82")
    case 15 => CountryEntry("Russia", "+7")
    case 16 => CountryEntry("South Africa", "+27")
    case 17 => CountryEntry("Nigeria", "+234")
    case 18 => CountryEntry("Egypt", "+20")
    case 19 => CountryEntry("Saudi Arabia", "+966")
    case 20 => CountryEntry("UAE", "+971")
    case 21 => CountryEntry("Pakistan", "+92")
    case 22 => CountryEntry("Bangladesh", "+880")
    case 23 => CountryEntry("Indonesia", "+62")
    case 24 => CountryEntry("Thailand", "+66")
    case 25 => CountryEntry("Vietnam", "+84")
    case 26 => CountryEntry("Philippines", "+63")
    case 27 => CountryEntry("Malaysia", "+60")
    case 28 => CountryEntry("Singapore", "+65")
    case _ => CountryEntry("New Zealand", "+64")
  }

  /** `countries.find(c => c.name === country)`, from entry `i` on. */
  function FindFrom(i: nat, country: string): Option<CountryEntry>
    requires i <= CountryCount
    decreases CountryCount - i
  {
    if i == CountryCount then None
    else if CountryAt(i).name == country then Some(CountryAt(i))
    else FindFrom(i + 1, country)
  }

  /** `find` gives nothing when no entry from `i` on has the name... */
  lemma {:induction false} FindNone(i: nat, country: string)
    requires i <= CountryCount
    requires forall k :: i <= k < CountryCount ==> CountryAt(k).name != country
    ensures FindFrom(i, country) == None
    decreases CountryCount - i
  {
    if i < CountryCount {
      FindNone(i + 1, country);
    }
  }

  /** ...and something when an entry from `i` on has it. */
  lemma {:induction false} FindSome(i: nat, country: string, k: nat)
    requires i <= k < CountryCount && CountryAt(k).name == country
    ensures FindFrom(i, country).Some?
    decreases k - i
  {
    if i < k && CountryAt(i).name != country {
      FindSome(i + 1, country, k);
    }
  }

  /** `find` gives the first entry with the name. */
  lemma {:induction false} FindFirst(i: nat, country: string, k: nat)
    requires i <= k < CountryCount && CountryAt(k).name == country
    requires forall j :: i <= j < k ==> CountryAt(j).name != country
    ensures FindFrom(i, country) == Some(CountryAt(k))
    decreases k - i
  {
    if i < k {
      FindFirst(i + 1, country, k);
    }
  }

  lemma CodeNotEmpty(k: nat)
    requires k < CountryCount
    ensures CountryAt(k).code != ""
  {
  }

  lemma NameLength(k: nat)
    requires k < CountryCount
    ensures |CountryAt(k).name| >= 3 && |CountryAt(k).name| != 4
  {
  }

  /** `selectedCountry?.code || '+1'`. */
  function DialCode(country: string): (r: string)
    ensures r != ""
  {
    match FindFrom(0, country)
    case Some(e) => if e.code != "" then e.code else "+1"
    case None => "+1"
  }

  /** A name outside the table gets `+1`. */
  lemma DialCodeUnlisted(country: string)
    requires forall k :: 0 <= k < CountryCount ==> CountryAt(k).name != country
    ensures DialCode(country) == "+1"
  {
    FindNone(0, country);
  }

  /** A name in the table gets the code of its first entry. */
  lemma DialCodeOfEntry(k: nat, country: string)
    requires k < CountryCount && CountryAt(k).name == country
    requires forall j :: 0 <= j < k ==> CountryAt(j).name != country
    ensures DialCode(country) == CountryAt(k).code
  {
    FindFirst(0, country, k);
    CodeNotEmpty(k);
  }

  /** `handleCountryChange(country)`. */
  function ChangeCountry(p: Profile, country: string): (r: Profile)
    ensures r.country == country && r.countryCode == DialCode(country)
    ensures forall f :: f != Country && f != CountryCode ==> Get(r, f) == Get(p, f)
  {
    With(With(p, Country, country), CountryCode, DialCode(country))
  }

  /** The code at position `k` when no earlier entry has a name of the same
      length. */
  lemma CodeAt(k: nat, country: string)
    requires k < CountryCount && CountryAt(k).name == country
    requires forall j :: 0 <= j < k ==> |CountryAt(j).name| != |country|
    ensures DialCode(country) == CountryAt(k).code
  {
    DialCodeOfEntry(k, country);
  }

  /** Some entries of the table. */
  lemma KnownCodes()
    ensures DialCode("India") == "+91"
    ensures DialCode("United Kingdom") == "+44"
    ensures DialCode("Canada") == "+1"
    ensures DialCode("UAE") == "+971"
  {
    CodeAt(1, "India");
    CodeAt(2, "United Kingdom");
    CodeAt(3, "Canada");
    CodeAt(20, "UAE");
  }

  /** The empty choice and a name outside the table both give `+1`. */
  lemma UnknownCountries()
    ensures DialCode("") == "+1"
    ensures DialCode("Peru") == "+1"
  {
    forall k | 0 <= k < CountryCount
      ensures CountryAt(k).name != "" && CountryAt(k).name != "Peru"
    {
      NameLength(k);
    }
    DialCodeUnlisted("");
    DialCodeUnlisted("Peru");
  }

  // ---------------------------------------------------------------------
  // Stored form
  // ---------------------------------------------------------------------

  /** `JSON.stringify(profile)`: one string member per field, in order. */
  function ToJson(p: Profile): Json.Json {
    Json.Obj(seq(FieldCount, i requires 0 <= i < FieldCount => Json.Member(Key(FieldAt(i)), Json.Str(Get(p, FieldAt(i))))))
  }

  /** A field of a parsed record, when it is a string. */
  function Text(ms: seq<Json.Member>, f: Field): Option<string> {
    match Json.Lookup(ms, Key(f))
    case Some(Str(s)) => Some(s)
    case _ => None
  }

  function TextOr(ms: seq<Json.Member>, f: Field): string {
    match Text(ms, f)
    case Some(s) => s
    case None => ""
  }

  /** The record whose fields are given field by field. */
  function Build(g: Field -> string): (r: Profile)
    ensures forall f :: Get(r, f) == g(f)
  {
    Profile(g(Name), g(Age), g(Gender), g(Email), g(Phone), g(BloodType), g(Height),
            g(Weight), g(Country), g(CountryCode), g(State), g(Conditions), g(Allergies),
            g(Medications), g(EmergencyContact))
  }

  /** A parsed value read as a profile: an object with a string for every
      field. */
  function FromJson(j: Json.Json): (r: Option<Profile>)
    ensures r.Some? ==> j.Obj? && forall f :: Text(j.members, f) == Some(Get(r.value, f))
  {
    if j.Obj? && forall f :: Text(j.members, f).Some? then Some(Build(f => TextOr(j.members, f))) else None
  }

  /** The initial state: `p ? JSON.parse(p) : default`. `None` is a stored
      text that is not a profile record. */
  function Restore(stored: Option<string>): (r: Option<Profile>)
    ensures !Storage.Truthy(stored) ==> r == Some(DefaultProfile())
  {
    if !Storage.Truthy(stored) then Some(DefaultProfile())
    else
      match Json.Parse(stored.value)
      case Some(j) => FromJson(j)
      case None => None
  }

  lemma KeyInjective(f: Field, g: Field)
    requires Key(f) == Key(g)
    ensures f == g
  {
  }

  /** Two records with the same fields are the same record. */
  lemma SameFields(p: Profile, q: Profile)
    requires forall f :: Get(p, f) == Get(q, f)
    ensures p == q
  {
    assert Get(p, Name) == Get(q, Name);
    assert Get(p, Age) == Get(q, Age);
    assert Get(p, Gender) == Get(q, Gender);
    assert Get(p, Email) == Get(q, Email);
    assert Get(p, Phone) == Get(q, Phone);
    assert Get(p, BloodType) == Get(q, BloodType);
    assert Get(p, Height) == Get(q, Height);
    assert Get(p, Weight) == Get(q, Weight);
    assert Get(p, Country) == Get(q, Country);
    assert Get(p, CountryCode) == Get(q, CountryCode);
    assert Get(p, State) == Get(q, State);
    assert Get(p, Conditions) == Get(q, Conditions);
    assert Get(p, Allergies) == Get(q, Allergies);
    assert Get(p, Medications) == Get(q, Medications);
    assert Get(p, EmergencyContact) == Get(q, EmergencyContact);
  }

  lemma TextOfToJson(p: Profile, f: Field)
    ensures Text(ToJson(p).members, f) == Some(Get(p, f))
  {
    var ms := ToJson(p).members;
    var k := Position(f);
    assert ms[k].key == Key(f);
    var r := Json.Lookup(ms, Key(f));
    assert r.Some?;
    var i :| 0 <= i < |ms| && ms[i] == Json.Member(Key(f), r.value);
    KeyInjective(FieldAt(i), f);
    assert r.value == Json.Str(Get(p, f));
  }

  /** Reading back a saved record gives the record. */
  lemma FromToJson(p: Profile)
    ensures FromJson(ToJson(p)) == Some(p)
  {
    forall f ensures Text(ToJson(p).members, f) == Some(Get(p, f)) {
      TextOfToJson(p, f);
    }
    SameFields(FromJson(ToJson(p)).value, p);
  }

  /** After `save`, the next sidebar starts from the saved record. */
  lemma SaveThenRestore(items: map<string, string>, p: Profile)
    ensures Restore(Storage.Get(items[Storage.ProfileKey := Json.Stringify(ToJson(p))], Storage.ProfileKey)) == Some(p)
  {
    Json.RoundTrip(ToJson(p));
    FromToJson(p);
    assert Json.Stringify(ToJson(p))[0] == '{';
  }

  /** After a confirmed delete, the next sidebar starts from the default. */
  lemma DeleteThenRestore(items: map<string, string>)
    ensures Restore(Storage.Get(items - {Storage.ProfileKey}, Storage.ProfileKey)) == Some(DefaultProfile())
  {
  }

  // ---------------------------------------------------------------------
  // The sidebar
  // ---------------------------------------------------------------------

  class ProfileSidebar {
    var profile: Profile

    /** The `useState` initialiser; a stored text that is not a profile
        record is outside the model. */
    constructor (store: Storage.LocalStorage)
      requires Restore(Storage.Get(store.items, Storage.ProfileKey)).Some?
      ensures profile == Restore(Storage.Get(store.items, Storage.ProfileKey)).value
    {
      profile := Restore(Storage.Get(store.items, Storage.ProfileKey)).value;
    }

    /** A field's `onChange`. */
    method Edit(f: Field, value: string)
      requires Editable(f)
      modifies this
      ensures profile == With(old(profile), f, value)
    {
      profile := With(profile, f, value);
    }

    method HandleCountryChange(country: string)
      modifies this
      ensures profile == ChangeCountry(old(profile), country)
    {
      var selected := FindFrom(0, country);
      var code := if selected.Some? && selected.value.code != "" then selected.value.code else "+1";
      profile := profile.(country := country, countryCode := code);
    }

    /** `save`: the record goes to `mediro-profile`. */
    method Save(store: Storage.LocalStorage)
      modifies store
      ensures store.items == old(store.items)[Storage.ProfileKey := Json.Stringify(ToJson(profile))]
    {
      store.SetItem(Storage.ProfileKey, Json.Stringify(ToJson(profile)));
    }

    /** `deleteProfile`, with the answer to `window.confirm`. */
    method DeleteProfile(store: Storage.LocalStorage, confirmed: bool)
      modifies this, store
      ensures confirmed ==> store.items == old(store.items) - {Storage.ProfileKey} && profile == DefaultProfile()
      ensures !confirmed ==> store.items == old(store.items) && profile == old(profile)
    {
      if confirmed {
        store.RemoveItem(Storage.ProfileKey);
        profile := DefaultProfile();
      }
    }
  }
}
