/**
 * The page's controls and the rules that connect them to the persistent
 * store and to the query string: the two startup loaders, the sinks that
 * listen to the combined controls, and the reset command.
 *
 * The host's key-value store and the page address's query parameters are
 * explicit objects holding a map instead of globals.
 */
module Startup {
  import opened Wrappers
  import opened Listeners
  import opened Variable
  import NumberText
  import Uniqpass

  const SecretStorageKey: string := "secret"
  const SubjectParam: string := "subject"
  const LimitParam: string := "limit"

  /** The host's persistent key-value store. */
  class Store {
    var items: map<string, string>

    constructor (items: map<string, string>)
      ensures this.items == items
    {
      this.items := items;
    }
  }

  /** The query parameters of the page address. */
  class SearchParams {
    var entries: map<string, string>

    constructor (entries: map<string, string>)
      ensures this.entries == entries
    {
      this.entries := entries;
    }
  }

  /** The value cells over the page's inputs. `limit` reads the limit input
      through `parseInt` and writes it through `String`. */
  class Controls {
    const secret: Cell<string>
    const subject: Cell<string>
    const password: Cell<string>
    const rememberSecret: Cell<bool>
    const limitInput: Cell<string>
    const limit: MappedCell<string, Option<int>>

    ghost predicate Valid()
      reads this, secret, subject, password, rememberSecret, limitInput, limit
    {
      && secret != subject && secret != password && subject != password
      && limitInput != secret && limitInput != subject && limitInput != password
      && limit.base == limitInput
      && secret.Valid() && subject.Valid() && password.Valid() && rememberSecret.Valid()
      && limit.Valid()
      && (forall x :: limit.setter(x) == NumberText.NumberToString(x))
      && (forall x :: limit.getter(limit.setter(x)) == x)
    }

    /** A freshly loaded page: empty text inputs, the remember box unchecked,
        the limit input holding `initialLimit`, nothing listening yet. */
    constructor (initialLimit: string)
      ensures Valid()
      ensures fresh(secret) && fresh(subject) && fresh(password) && fresh(rememberSecret)
      ensures fresh(limitInput) && fresh(limit)
      ensures secret.Get() == "" && subject.Get() == "" && password.Get() == ""
      ensures !rememberSecret.Get() && limitInput.Get() == initialLimit
      ensures limit.getter == NumberText.ParseInt && limit.setter == NumberText.NumberToString
    {
      secret := new Cell("");
      subject := new Cell("");
      password := new Cell("");
      rememberSecret := new Cell(false);
      var input := new Cell(initialLimit);
      limitInput := input;
      limit := new MappedCell(input, NumberText.ParseInt, NumberText.NumberToString);
      forall x ensures NumberText.ParseInt(NumberText.NumberToString(x)) == x {
        NumberText.ParseIntInvertsNumberToString(x);
      }
    }
  }

  /** Startup, first step: a stored secret fills the secret input and checks
      the remember box; without one nothing changes. */
  method LoadValuesFromStorage(store: Store, c: Controls)
    requires c.Valid()
    modifies c.secret, c.rememberSecret
    ensures c.Valid()
    ensures c.secret.listeners == old(c.secret.listeners) && c.secret.attached == old(c.secret.attached)
    ensures c.rememberSecret.listeners == old(c.rememberSecret.listeners)
    ensures c.rememberSecret.attached == old(c.rememberSecret.attached)
    ensures SecretStorageKey in store.items ==>
      && c.secret.Get() == store.items[SecretStorageKey]
      && c.rememberSecret.Get()
      && c.secret.trace == old(c.secret.trace) + Broadcast(c.secret.listeners, c.secret.Get())
      && c.rememberSecret.trace == old(c.rememberSecret.trace) + Broadcast(c.rememberSecret.listeners, true)
    ensures SecretStorageKey !in store.items ==> unchanged(c.secret, c.rememberSecret)
  {
    if SecretStorageKey in store.items {
      var storedSecret := store.items[SecretStorageKey];
      c.secret.Set(storedSecret);
      c.rememberSecret.Set(true);
    }
  }

  /** The limit a `limit` parameter asks for: None when the parameter is
      absent or does not parse as a number. */
  function LimitParamValue(entries: map<string, string>): Option<int>
  {
    if LimitParam in entries then NumberText.ParseInt(entries[LimitParam]) else None
  }

  /** The subject a `subject` parameter asks for: None when the parameter is
      absent or empty (both falsy). */
  function SubjectParamValue(entries: map<string, string>): Option<string>
  {
    if SubjectParam in entries && entries[SubjectParam] != "" then Some(entries[SubjectParam]) else None
  }

  /** Startup, second step: a `limit` parameter that parses as a number sets
      the limit (one that does not is ignored), and a non-empty `subject`
      parameter sets the subject. */
  method LoadValuesFromURL(params: SearchParams, c: Controls)
    requires c.Valid()
    modifies c.limit, c.limitInput, c.subject
    ensures c.Valid()
    ensures c.limit.listeners == old(c.limit.listeners) && c.limitInput.attached == old(c.limitInput.attached)
    ensures c.subject.listeners == old(c.subject.listeners) && c.subject.attached == old(c.subject.attached)
    ensures LimitParamValue(params.entries).Some? ==>
      && c.limit.Get() == LimitParamValue(params.entries)
      && c.limitInput.Get() == NumberText.NumberToString(LimitParamValue(params.entries))
      && c.limit.trace == old(c.limit.trace)
           + Broadcast(c.limit.listeners, c.limit.Get()) + Broadcast(c.limit.listeners, c.limit.Get())
    ensures LimitParamValue(params.entries).None? ==> unchanged(c.limit, c.limitInput)
    ensures SubjectParamValue(params.entries).Some? ==>
      && c.subject.Get() == SubjectParamValue(params.entries).value
      && c.subject.trace == old(c.subject.trace) + Broadcast(c.subject.listeners, c.subject.Get())
    ensures SubjectParamValue(params.entries).None? ==> unchanged(c.subject)
  {
    var limitValue := LimitParamValue(params.entries);
    if limitValue.Some? {
      c.limit.Set(limitValue);
    }
    var subjectValue := SubjectParamValue(params.entries);
    if subjectValue.Some? {
      c.subject.Set(subjectValue.value);
    }
  }

  /** Listener of the combined (secret, remember) controls: the store holds
      the secret exactly while remembering is on. */
  method RememberSecretSink(store: Store, secret: string, remember: bool)
    modifies store
    ensures remember ==> store.items == old(store.items)[SecretStorageKey := secret]
    ensures !remember ==> store.items == old(store.items) - {SecretStorageKey}
  {
    if remember {
      store.items := store.items[SecretStorageKey := secret];
    } else {
      store.items := store.items - {SecretStorageKey};
    }
  }

  /** Listener of the combined (secret, subject, limit) controls: shows the
      derived password. */
  method PasswordSink(p: Uniqpass.Primitives, c: Controls, secret: string, subject: string, limit: Option<int>)
    requires c.Valid()
    modifies c.password
    ensures c.Valid()
    ensures c.password.listeners == old(c.password.listeners) && c.password.attached == old(c.password.attached)
    ensures c.password.Get() == Uniqpass.ComputeUniqpass(p, secret, subject, limit)
    ensures c.password.trace == old(c.password.trace) + Broadcast(c.password.listeners, c.password.Get())
  {
    var pass := Uniqpass.ComputeUniqpass(p, secret, subject, limit);
    c.password.Set(pass);
  }

  /** Listener of the combined (subject, limit) controls, as written: writes
      `subject` when it is non-empty and always writes `limit`. An empty
      subject leaves an earlier `subject` parameter in place. */
  method QuerySink(params: SearchParams, subject: string, limit: Option<int>)
    modifies params
    ensures subject != "" ==>
      params.entries == old(params.entries)[SubjectParam := subject][LimitParam := NumberText.NumberToString(limit)]
    ensures subject == "" ==>
      params.entries == old(params.entries)[LimitParam := NumberText.NumberToString(limit)]
  {
    if subject != "" {
      params.entries := params.entries[SubjectParam := subject];
    }
    params.entries := params.entries[LimitParam := NumberText.NumberToString(limit)];
  }

  /** The query sink as evidently intended: an empty subject removes the
      `subject` parameter instead of leaving a stale one. */
  method QuerySinkClearingSubject(params: SearchParams, subject: string, limit: Option<int>)
    modifies params
    ensures subject != "" ==>
      params.entries == old(params.entries)[SubjectParam := subject][LimitParam := NumberText.NumberToString(limit)]
    ensures subject == "" ==>
      params.entries == (old(params.entries) - {SubjectParam})[LimitParam := NumberText.NumberToString(limit)]
  {
    if subject != "" {
      params.entries := params.entries[SubjectParam := subject];
    } else {
      params.entries := params.entries - {SubjectParam};
    }
    params.entries := params.entries[LimitParam := NumberText.NumberToString(limit)];
  }

  /** The reset command: sets the limit back to the default. The input then
      shows "44", and each limit listener is notified twice, which is how the
      password and the address are recomputed. */
  method ResetLimit(c: Controls)
    requires c.Valid()
    modifies c.limit, c.limitInput
    ensures c.Valid()
    ensures c.limit.listeners == old(c.limit.listeners) && c.limitInput.attached == old(c.limitInput.attached)
    ensures c.limitInput.Get() == "44" && c.limit.Get() == Some(Uniqpass.DefaultLimit)
    ensures c.limit.trace == old(c.limit.trace)
      + Broadcast(c.limit.listeners, Some(Uniqpass.DefaultLimit))
      + Broadcast(c.limit.listeners, Some(Uniqpass.DefaultLimit))
  {
    c.limit.Set(Some(Uniqpass.DefaultLimit));
    assert NumberText.Decimal(44) == NumberText.Decimal(4) + [NumberText.DigitChar(4)];
  }

  /** What the storage sink writes, the storage loader reads back on the
      next page load: the secret and a checked box when remembering was on,
      an empty secret and an unchecked box when it was off, whatever the
      store held before. */
  method RememberRoundTrip(before: map<string, string>, secret: string, remember: bool)
    returns (loadedSecret: string, loadedRemember: bool)
    ensures loadedRemember == remember
    ensures loadedSecret == if remember then secret else ""
  {
    var store := new Store(before);
    RememberSecretSink(store, secret, remember);
    var c := new Controls("");
    LoadValuesFromStorage(store, c);
    loadedSecret := c.secret.Get();
    loadedRemember := c.rememberSecret.Get();
  }

  /** A page load over an address with query parameters `entries`: the
      subject is the non-empty `subject` parameter, or empty without one; the
      limit is the `limit` parameter when it parses, and otherwise the page's
      own initial limit. */
  method LoadFromAddress(entries: map<string, string>, initialLimit: string)
    returns (loadedSubject: string, loadedLimit: Option<int>)
    ensures SubjectParamValue(entries).Some? ==> loadedSubject == SubjectParamValue(entries).value
    ensures SubjectParamValue(entries).None? ==> loadedSubject == ""
    ensures LimitParamValue(entries).Some? ==> loadedLimit == LimitParamValue(entries)
    ensures LimitParamValue(entries).None? ==> loadedLimit == NumberText.ParseInt(initialLimit)
  {
    var params := new SearchParams(entries);
    var c := new Controls(initialLimit);
    LoadValuesFromURL(params, c);
    loadedSubject := c.subject.Get();
    loadedLimit := c.limit.Get();
  }

  /** With the intended query sink, the next page load restores the subject
      and the limit from any earlier address; a NaN limit is ignored and the
      page's own initial limit stays. */
  method QueryRoundTrip(before: map<string, string>, subject: string, limit: Option<int>, initialLimit: string)
    returns (loadedSubject: string, loadedLimit: Option<int>)
    ensures loadedSubject == subject
    ensures limit.Some? ==> loadedLimit == limit
    ensures limit.None? ==> loadedLimit == NumberText.ParseInt(initialLimit)
  {
    var params := new SearchParams(before);
    QuerySinkClearingSubject(params, subject, limit);
    NumberText.ParseIntInvertsNumberToString(limit);
    assert LimitParamValue(params.entries) == limit;
    assert SubjectParamValue(params.entries) == if subject == "" then None else Some(subject);
    loadedSubject, loadedLimit := LoadFromAddress(params.entries, initialLimit);
  }

  /** With the query sink as written, clearing the subject does not survive
      a reload: an address that held a non-empty `subject` still holds it
      after an empty subject was emitted, and the reload restores it instead
      of the empty subject. */
  method StaleSubjectOnReload(before: map<string, string>, limit: Option<int>, initialLimit: string)
    returns (loadedSubject: string)
    requires SubjectParam in before && before[SubjectParam] != ""
    ensures loadedSubject == before[SubjectParam] && loadedSubject != ""
  {
    var params := new SearchParams(before);
    QuerySink(params, "", limit);
    assert SubjectParamValue(params.entries) == Some(before[SubjectParam]);
    var loadedLimit;
    loadedSubject, loadedLimit := LoadFromAddress(params.entries, initialLimit);
  }
}
