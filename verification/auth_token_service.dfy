/** The credential store: four `localStorage` keys holding the access token,
    the refresh token, the expiry instant and the count of silent refreshes.
    The storage is a map from key to text; integers are kept as decimal text. */
module Credentials {
  import opened JsValues
  import opened Decimal

  const AccessTokenKey := "access_token"
  const RefreshTokenKey := "refresh_token"
  const ExpiresAtKey := "expires_at"
  const RefreshCountKey := "refresh_count"
  const TokenKeys: set<string> := {AccessTokenKey, RefreshTokenKey, ExpiresAtKey, RefreshCountKey}

  /** The browser's key/value storage, shared with whatever else the page keeps there. */
  type Storage = map<string, string>

  /** The two numeric keys hold text that `Number` reads as an integer.
      Every writer in this module keeps this. */
  predicate WellFormed(m: Storage) {
    && (ExpiresAtKey in m ==> IsIntText(m[ExpiresAtKey]))
    && (RefreshCountKey in m ==> |m[RefreshCountKey]| > 0 && IsDigits(m[RefreshCountKey]))
  }

  /** The fields `updateAccessToken` takes; each may be missing. */
  datatype Tokens = Tokens(accessToken: Option<string>, refreshToken: Option<string>, expiresAt: Option<int>)

  /** What `loadTokens` returns. */
  datatype Loaded = Loaded(accessToken: Option<string>, refreshToken: Option<string>, expiresAt: Option<int>, refreshCount: nat)

  const Cleared := Loaded(None, None, None, 0)

  /** The entries of the storage outside the four token keys. */
  function Others(m: Storage): Storage {
    m - TokenKeys
  }

  /** `localStorage.getItem(key) || null` */
  function GetNonEmpty(m: Storage, key: string): Option<string> {
    if key in m && m[key] != "" then Some(m[key]) else None
  }

  /** `loadTokens`: absent or empty tokens read as null, an absent expiry as null,
      an absent count as 0. */
  function Load(m: Storage): (t: Loaded)
    requires WellFormed(m)
    ensures t.accessToken.None? <==> AccessTokenKey !in m || m[AccessTokenKey] == ""
    ensures t.accessToken.Some? ==> t.accessToken.value == m[AccessTokenKey] != ""
    ensures t.refreshToken.None? <==> RefreshTokenKey !in m || m[RefreshTokenKey] == ""
    ensures t.refreshToken.Some? ==> t.refreshToken.value == m[RefreshTokenKey] != ""
    ensures t.expiresAt.None? <==> ExpiresAtKey !in m
    ensures RefreshCountKey !in m ==> t.refreshCount == 0
  {
    var expiresAtRaw := if ExpiresAtKey in m then m[ExpiresAtKey] else "";
    var refreshCountRaw := if RefreshCountKey in m then m[RefreshCountKey] else "";
    Loaded(
      GetNonEmpty(m, AccessTokenKey),
      GetNonEmpty(m, RefreshTokenKey),
      if expiresAtRaw != "" then Some(TextToInt(expiresAtRaw)) else None,
      if refreshCountRaw != "" then TextToNat(refreshCountRaw) else 0)
  }

  /** `saveTokens`: writes the four keys, the count as "0", and nothing else. */
  function Save(m: Storage, accessToken: string, refreshToken: string, expiresAt: int): (m': Storage)
    ensures WellFormed(m')
    ensures m'.Keys == m.Keys + TokenKeys
    ensures Others(m') == Others(m)
    ensures m'[AccessTokenKey] == accessToken && m'[RefreshTokenKey] == refreshToken
    ensures m'[RefreshCountKey] == "0"
  {
    m[AccessTokenKey := accessToken][RefreshTokenKey := refreshToken]
     [ExpiresAtKey := IntToText(expiresAt)][RefreshCountKey := "0"]
  }

  /** `key` holds `v` when `v` is given, and is as it was in `m` otherwise. */
  predicate SetOrKept(m: Storage, m': Storage, key: string, v: Option<string>) {
    match v
    case Some(text) => key in m' && m'[key] == text
    case None => (key in m' <==> key in m) && (key in m ==> m'[key] == m[key])
  }

  /** `if (value) localStorage.setItem(key, value)` for one of the token keys. */
  function PutIf(m: Storage, key: string, v: Option<string>): (m': Storage)
    requires key in TokenKeys
    ensures SetOrKept(m, m', key, v)
    ensures forall k :: k != key ==> (k in m' <==> k in m) && (k in m ==> m'[k] == m[k])
    ensures Others(m') == Others(m)
  {
    if v.Some? then m[key := v.value] else m
  }

  /** `updateAccessToken`: overwrites each present (truthy) field, leaves the
      others as they were, and bumps the stored count by one, returning it. */
  function Bump(m: Storage, t: Tokens): (r: (Storage, nat))
    requires WellFormed(m)
    ensures WellFormed(r.0)
    ensures r.1 == Load(m).refreshCount + 1
    ensures RefreshCountKey in r.0 && r.0[RefreshCountKey] == NatToText(r.1)
  {
    var m1 := PutIf(m, AccessTokenKey, if TruthyStr(t.accessToken) then t.accessToken else None);
    var m2 := PutIf(m1, ExpiresAtKey, if TruthyNum(t.expiresAt) then Some(IntToText(t.expiresAt.value)) else None);
    var m3 := PutIf(m2, RefreshTokenKey, if TruthyStr(t.refreshToken) then t.refreshToken else None);
    Counted(m3)
  }

  /** `updateAccessToken` writes a field exactly when it is truthy and touches no
      key outside the four. */
  lemma BumpWrites(m: Storage, t: Tokens)
    requires WellFormed(m)
    ensures var m' := Bump(m, t).0;
            && Others(m') == Others(m)
            && SetOrKept(m, m', AccessTokenKey, if TruthyStr(t.accessToken) then t.accessToken else None)
            && SetOrKept(m, m', RefreshTokenKey, if TruthyStr(t.refreshToken) then t.refreshToken else None)
            && SetOrKept(m, m', ExpiresAtKey, if TruthyNum(t.expiresAt) then Some(IntToText(t.expiresAt.value)) else None)
  {
  }

  /** The last step of `updateAccessToken`: the stored count (absent or empty
      read as "0") plus 1 is written back and returned. */
  function Counted(m: Storage): (r: (Storage, nat))
    requires WellFormed(m)
    ensures WellFormed(r.0)
    ensures r.1 == Load(m).refreshCount + 1
    ensures r.0 == m[RefreshCountKey := NatToText(r.1)]
  {
    var raw := if RefreshCountKey in m && m[RefreshCountKey] != "" then m[RefreshCountKey] else "0";
    var current := TextToNat(raw) + 1;
    (m[RefreshCountKey := NatToText(current)], current)
  }

  /** After `updateAccessToken`, `loadTokens` reports the new count and, for each
      field, the given value when it was truthy and the old one otherwise. */
  lemma BumpThenLoad(m: Storage, t: Tokens)
    requires WellFormed(m)
    ensures var (m', n) := Bump(m, t);
            && Load(m').refreshCount == n == Load(m).refreshCount + 1
            && Load(m').accessToken == (if TruthyStr(t.accessToken) then t.accessToken else Load(m).accessToken)
            && Load(m').refreshToken == (if TruthyStr(t.refreshToken) then t.refreshToken else Load(m).refreshToken)
            && Load(m').expiresAt == (if TruthyNum(t.expiresAt) then t.expiresAt else Load(m).expiresAt)
  {
    BumpWrites(m, t);
    NatRoundTrip(Bump(m, t).1);
    if TruthyNum(t.expiresAt) {
      IntRoundTrip(t.expiresAt.value);
    }
  }

  /** `resetRefreshCount`: the count reads as 0 and no other key changes. */
  function Reset(m: Storage): (m': Storage)
    requires WellFormed(m)
    ensures WellFormed(m')
    ensures Load(m').refreshCount == 0
    ensures m' - {RefreshCountKey} == m - {RefreshCountKey}
    ensures RefreshCountKey in m'
  {
    m[RefreshCountKey := "0"]
  }

  /** `clearTokens`: removes exactly the four keys. */
  function Clear(m: Storage): (m': Storage)
    ensures WellFormed(m')
    ensures m'.Keys == m.Keys - TokenKeys
    ensures Others(m') == Others(m)
    ensures Load(m') == Cleared
  {
    m - TokenKeys
  }

  /** Saving and loading gives the tokens back (empty text reads as null) with count 0. */
  lemma SaveThenLoad(m: Storage, accessToken: string, refreshToken: string, expiresAt: int)
    ensures Load(Save(m, accessToken, refreshToken, expiresAt))
         == Loaded(if accessToken == "" then None else Some(accessToken),
                   if refreshToken == "" then None else Some(refreshToken),
                   Some(expiresAt), 0)
  {
    IntRoundTrip(expiresAt);
  }

  lemma ClearIdempotent(m: Storage)
    ensures Clear(Clear(m)) == Clear(m)
  {
  }

  /** `loadTokens` looks at the four token keys only. */
  lemma LoadReadsOnlyTokenKeys(m1: Storage, m2: Storage)
    requires WellFormed(m1) && WellFormed(m2)
    requires forall k :: k in TokenKeys ==> (k in m1 <==> k in m2) && (k in m1 ==> m1[k] == m2[k])
    ensures Load(m1) == Load(m2)
  {
  }

  /** The storage as the page sees it; `localStorage` updated in place. */
  class TokenStore {
    var items: Storage

    predicate Valid()
      reads this
    {
      WellFormed(items)
    }

    constructor (initial: Storage)
      requires WellFormed(initial)
      ensures Valid() && items == initial
    {
      items := initial;
    }

    function LoadTokens(): (t: Loaded)
      reads this
      requires Valid()
      ensures t == Load(items)
      ensures t.accessToken.Some? ==> t.accessToken.value != ""
      ensures t.refreshToken.Some? ==> t.refreshToken.value != ""
    {
      Load(items)
    }

    method SaveTokens(accessToken: string, refreshToken: string, expiresAt: int)
      modifies this
      ensures Valid()
      ensures items == Save(old(items), accessToken, refreshToken, expiresAt)
    {
      items := items[AccessTokenKey := accessToken];
      items := items[RefreshTokenKey := refreshToken];
      items := items[ExpiresAtKey := IntToText(expiresAt)];
      items := items[RefreshCountKey := "0"];
    }

    method UpdateAccessToken(t: Tokens) returns (current: nat)
      requires Valid()
      modifies this
      ensures Valid()
      ensures (items, current) == Bump(old(items), t)
    {
      if TruthyStr(t.accessToken) {
        items := items[AccessTokenKey := t.accessToken.value];
      }
      if TruthyNum(t.expiresAt) {
        items := items[ExpiresAtKey := IntToText(t.expiresAt.value)];
      }
      if TruthyStr(t.refreshToken) {
        items := items[RefreshTokenKey := t.refreshToken.value];
      }
      var raw := if RefreshCountKey in items && items[RefreshCountKey] != "" then items[RefreshCountKey] else "0";
      current := TextToNat(raw) + 1;
      items := items[RefreshCountKey := NatToText(current)];
    }

    method ResetRefreshCount()
      requires Valid()
      modifies this
      ensures Valid()
      ensures items == Reset(old(items))
    {
      items := items[RefreshCountKey := "0"];
    }

    method ClearTokens()
      modifies this
      ensures Valid()
      ensures items == Clear(old(items))
    {
      items := items - {AccessTokenKey};
      items := items - {RefreshTokenKey};
      items := items - {ExpiresAtKey};
      items := items - {RefreshCountKey};
    }
  }
}
