/** The settings endpoint (app/api/settings/route.ts): anyone may read the settings, all of
    them or one category, as rows and as a key-to-value object; administrators create or
    update one setting by key. */
module SettingsRoute {
  import opened Common
  import opened Seqs
  import Store

  // ---------------------------------------------------------------------------
  // Reading

  /** `acc[setting.key] = setting.value` over the rows in order: a later row overwrites an
      earlier one with the same key. */
  function Collect(rows: seq<Setting>): map<string, string> {
    if rows == [] then map[]
    else Collect(rows[..|rows| - 1])[rows[|rows| - 1].key := rows[|rows| - 1].value]
  }

  /** The `reduce` of the handler, as the loop it performs. */
  method ToObject(rows: seq<Setting>) returns (obj: map<string, string>)
    ensures obj == Collect(rows)
  {
    obj := map[];
    for i := 0 to |rows|
      invariant obj == Collect(rows[..i])
    {
      assert rows[..i + 1][..i] == rows[..i];
      obj := obj[rows[i].key := rows[i].value];
    }
    assert rows[..|rows|] == rows;
  }

  /** The object has exactly the keys of the rows. */
  lemma {:induction false} CollectKeys(rows: seq<Setting>)
    ensures forall k :: k in Collect(rows) <==> exists i :: 0 <= i < |rows| && rows[i].key == k
  {
    if rows != [] {
      var init := rows[..|rows| - 1];
      CollectKeys(init);
      forall k ensures k in Collect(rows) <==> exists i :: 0 <= i < |rows| && rows[i].key == k {
        if exists i :: 0 <= i < |init| && init[i].key == k {
          var i :| 0 <= i < |init| && init[i].key == k;
          assert rows[i].key == k;
        }
      }
    }
  }

  /** With unique keys (the store's constraint) every row's value is found under its key. */
  lemma {:induction false} CollectValues(rows: seq<Setting>)
    requires Store.UniqueKeys(rows)
    ensures forall i :: 0 <= i < |rows| ==> rows[i].key in Collect(rows) && Collect(rows)[rows[i].key] == rows[i].value
  {
    if rows != [] {
      var init := rows[..|rows| - 1];
      CollectValues(init);
      forall i | 0 <= i < |rows| ensures rows[i].key in Collect(rows) && Collect(rows)[rows[i].key] == rows[i].value {
        if i < |rows| - 1 {
          assert init[i] == rows[i];
          assert rows[i].key != rows[|rows| - 1].key;
        }
      }
    }
  }

  /** With unique keys the object has one entry per row. */
  lemma {:induction false} CollectSize(rows: seq<Setting>)
    requires Store.UniqueKeys(rows)
    ensures |Collect(rows)| == |rows|
  {
    if rows != [] {
      var init := rows[..|rows| - 1];
      CollectSize(init);
      CollectKeys(init);
      var last := rows[|rows| - 1];
      forall i | 0 <= i < |init| ensures init[i].key != last.key {
        assert init[i] == rows[i];
      }
      assert last.key !in Collect(init);
    }
  }

  /** `where: category ? { category } : undefined`. */
  predicate Selected(category: Option<string>, s: Setting) {
    !Truthy(category) || s.category == category
  }

  datatype SettingsPage = SettingsPage(settings: map<string, string>, raw: seq<Setting>)

  /** GET: the rows of the requested category (all rows without one) and their object. */
  method GetSettings(settings: seq<Setting>, category: Option<string>) returns (page: SettingsPage)
    ensures page.raw == Filter(settings, s => Selected(category, s))
    ensures page.settings == Collect(page.raw)
  {
    var rows := Filter(settings, s => Selected(category, s));
    var obj := ToObject(rows);
    page := SettingsPage(obj, rows);
  }

  /** Filtering a table with unique keys keeps them unique. */
  lemma {:induction false} FilterKeepsKeysUnique(settings: seq<Setting>, p: Setting -> bool)
    requires Store.UniqueKeys(settings)
    ensures Store.UniqueKeys(Filter(settings, p))
  {
    if |settings| > 0 {
      var rest := settings[1..];
      assert Store.UniqueKeys(rest) by {
        forall i, j | 0 <= i < j < |rest| ensures rest[i].key != rest[j].key {
          assert rest[i] == settings[i + 1] && rest[j] == settings[j + 1];
        }
      }
      FilterKeepsKeysUnique(rest, p);
      if p(settings[0]) {
        var r := [settings[0]] + Filter(rest, p);
        forall i, j | 0 <= i < j < |r| ensures r[i].key != r[j].key {
          if i == 0 {
            assert r[j] in rest;
            var k :| 0 <= k < |rest| && rest[k] == r[j];
            assert settings[k + 1] == r[j];
          }
        }
      }
    }
  }

  /** Under the store's unique keys, the page's object holds exactly the selected keys, each
      with its row's value, and has one entry per row. */
  lemma PageObject(settings: seq<Setting>, category: Option<string>)
    requires Store.UniqueKeys(settings)
    ensures var rows := Filter(settings, s => Selected(category, s));
      && |Collect(rows)| == |rows|
      && (forall s :: s in rows ==> s.key in Collect(rows) && Collect(rows)[s.key] == s.value)
      && (forall k :: k in Collect(rows) ==> exists s :: s in settings && Selected(category, s) && s.key == k)
  {
    var rows := Filter(settings, s => Selected(category, s));
    FilterKeepsKeysUnique(settings, s => Selected(category, s));
    CollectSize(rows);
    CollectValues(rows);
    CollectKeys(rows);
    forall s | s in rows ensures s.key in Collect(rows) && Collect(rows)[s.key] == s.value {
      var i :| 0 <= i < |rows| && rows[i] == s;
    }
    forall k | k in Collect(rows) ensures exists s :: s in settings && Selected(category, s) && s.key == k {
      var i :| 0 <= i < |rows| && rows[i].key == k;
      assert rows[i] in rows;
    }
  }

  // ---------------------------------------------------------------------------
  // Writing

  /** The request body; every property may be missing. */
  datatype RawSetting = RawSetting(key: Option<string>, value: Option<string>, category: Option<string>,
                                   description: Option<string>)

  /** The position of the row with the given key. */
  function IndexOf(settings: seq<Setting>, key: string): (r: Option<nat>)
    ensures r.Some? ==> r.value < |settings| && settings[r.value].key == key
    ensures r.Some? ==> forall j :: 0 <= j < r.value ==> settings[j].key != key
    ensures r.None? ==> forall j :: 0 <= j < |settings| ==> settings[j].key != key
  {
    if |settings| == 0 then None
    else if settings[0].key == key then Some(0)
    else
      match IndexOf(settings[1..], key)
      case None => None
      case Some(i) => Some(i + 1)
  }

  /** The row stored under a key, if any. */
  function Find(settings: seq<Setting>, key: string): Option<Setting> {
    match IndexOf(settings, key)
    case None => None
    case Some(i) => Some(settings[i])
  }

  /** The `update` branch: a property missing from the body leaves its column unchanged. */
  function Updated(row: Setting, raw: RawSetting): Setting {
    Setting(row.key, raw.value.GetOr(row.value),
            if raw.category.Some? then raw.category else row.category,
            if raw.description.Some? then raw.description else row.description)
  }

  /** The `create` branch: the value is required. */
  function Fresh(key: string, raw: RawSetting): Setting
    requires raw.value.Some?
  {
    Setting(key, raw.value.value, raw.category, raw.description)
  }

  /** The table after the upsert and the row it returns, or None when the store refuses it
      (no key to look up, or a new key without a value). */
  function Upsert(settings: seq<Setting>, raw: RawSetting): (r: Option<(seq<Setting>, Setting)>)
    ensures r.None? <==> raw.key.None? || (Find(settings, raw.key.value).None? && raw.value.None?)
  {
    if raw.key.None? then None
    else
      match IndexOf(settings, raw.key.value)
      case Some(i) =>
        var row := Updated(settings[i], raw);
        Some((settings[i := row], row))
      case None =>
        if raw.value.None? then None
        else
          var row := Fresh(raw.key.value, raw);
          Some((settings + [row], row))
  }

  /** POST: 401 without a token, 403 for an unknown token or a non-administrator, 500 when
      the store refuses the upsert; otherwise the upserted row. */
  function UpsertResponse(settings: seq<Setting>, caller: Caller, raw: RawSetting): (r: Response<Setting>)
    ensures caller.NoToken? <==> r.Failure? && r.status == 401
    ensures r.Failure? && r.status == 403 <==> caller.UnknownToken? || (caller.SignedIn? && caller.user.role != Admin)
    ensures r.Ok? <==> caller.SignedIn? && caller.user.role == Admin && Upsert(settings, raw).Some?
    ensures r.Ok? ==> r.status == 200 && r.body == Upsert(settings, raw).value.1
  {
    match caller
    case NoToken => Failure(401, "Unauthorized")
    case UnknownToken => Failure(403, "Access denied")
    case SignedIn(user) =>
      if user.role != Admin then Failure(403, "Access denied")
      else
        match Upsert(settings, raw)
        case None => Failure(500, "Failed to update settings")
        case Some((_, row)) => Ok(200, row)
  }

  /** POST against the store: the settings table changes exactly when the answer is 200. */
  method UpdateSetting(db: Store.Database, caller: Caller, raw: RawSetting) returns (r: Response<Setting>)
    modifies db`settings
    ensures r == UpsertResponse(old(db.settings), caller, raw)
    ensures r.Ok? ==> db.settings == Upsert(old(db.settings), raw).value.0
    ensures r.Failure? ==> db.settings == old(db.settings)
  {
    if caller.NoToken? {
      return Failure(401, "Unauthorized");
    }
    if caller.UnknownToken? || caller.user.role != Admin {
      return Failure(403, "Access denied");
    }
    var result := Upsert(db.settings, raw);
    if result.None? {
      return Failure(500, "Failed to update settings");
    }
    db.settings := result.value.0;
    r := Ok(200, result.value.1);
  }

  /** After the upsert the key holds the returned row, which carries every property the body
      gave; a property the body left out keeps its stored value. */
  lemma UpsertStores(settings: seq<Setting>, raw: RawSetting)
    requires Upsert(settings, raw).Some?
    ensures var (t, row) := Upsert(settings, raw).value;
      && Find(t, raw.key.value) == Some(row)
      && row.key == raw.key.value
      && (raw.value.Some? ==> row.value == raw.value.value)
      && (raw.category.Some? ==> row.category == raw.category)
      && (raw.description.Some? ==> row.description == raw.description)
      && (Find(settings, raw.key.value).Some? && raw.value.None? ==> row.value == Find(settings, raw.key.value).value.value)
  {
    var key := raw.key.value;
    var (t, row) := Upsert(settings, raw).value;
    match IndexOf(settings, key)
    case Some(i) =>
      assert forall j :: 0 <= j < i ==> t[j] == settings[j];
      assert IndexOf(t, key) == Some(i) by { FirstIndex(t, key, i); }
    case None =>
      assert IndexOf(t, key) == Some(|settings|) by { FirstIndex(t, key, |settings|); }
  }

  /** IndexOf answers the first position holding the key. */
  lemma FirstIndex(settings: seq<Setting>, key: string, i: nat)
    requires i < |settings| && settings[i].key == key
    requires forall j :: 0 <= j < i ==> settings[j].key != key
    ensures IndexOf(settings, key) == Some(i)
  {
  }

  /** No position holds the key, so IndexOf finds none. */
  lemma NoIndex(settings: seq<Setting>, key: string)
    requires forall j :: 0 <= j < |settings| ==> settings[j].key != key
    ensures IndexOf(settings, key) == None
  {
  }

  /** The upsert leaves every other key as it was. */
  lemma UpsertOthers(settings: seq<Setting>, raw: RawSetting, k: string)
    requires Upsert(settings, raw).Some?
    requires k != raw.key.value
    ensures Find(Upsert(settings, raw).value.0, k) == Find(settings, k)
  {
    var t := Upsert(settings, raw).value.0;
    assert |settings| <= |t|;
    assert forall j :: 0 <= j < |settings| ==> (t[j].key == k <==> settings[j].key == k);
    assert forall j :: |settings| <= j < |t| ==> t[j].key != k;
    match IndexOf(settings, k)
    case Some(i) =>
      FirstIndex(t, k, i);
    case None =>
      NoIndex(t, k);
  }

  /** Upserting the same body twice leaves the table as one upsert does. */
  lemma UpsertIdempotent(settings: seq<Setting>, raw: RawSetting)
    requires Upsert(settings, raw).Some?
    ensures var (t, row) := Upsert(settings, raw).value;
      Upsert(t, raw) == Some((t, row))
  {
    var key := raw.key.value;
    var (t, row) := Upsert(settings, raw).value;
    UpsertStores(settings, raw);
    var i := IndexOf(t, key).value;
    assert Updated(row, raw) == row;
    assert t[i := row] == t;
  }

  /** The table grows by one row exactly when the key was absent, and otherwise keeps its size. */
  lemma UpsertGrowth(settings: seq<Setting>, raw: RawSetting)
    requires Upsert(settings, raw).Some?
    ensures var t := Upsert(settings, raw).value.0;
      && (|t| == |settings| + 1 <==> Find(settings, raw.key.value).None?)
      && (Find(settings, raw.key.value).Some? ==> |t| == |settings|)
  {
  }

  /** The upsert keeps the keys of the table unique. */
  lemma UpsertKeepsKeysUnique(settings: seq<Setting>, raw: RawSetting)
    requires Store.UniqueKeys(settings)
    requires Upsert(settings, raw).Some?
    ensures Store.UniqueKeys(Upsert(settings, raw).value.0)
  {
    var t := Upsert(settings, raw).value.0;
    forall i, j | 0 <= i < j < |t| ensures t[i].key != t[j].key {
      if j == |settings| {
        assert t[i] == settings[i];
      }
    }
  }
}
