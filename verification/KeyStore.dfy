/**
 The store of access keys: names unique within a role, key hashes unique, and default names that are
 always found.
 */
module KeyStore {

  import opened Options
  import opened Sequences
  import Sets

  datatype Role = Admin | User

  datatype Key = Key(id: string, name: string, role: Role, hash: string, enabled: bool)

  type Keys = seq<Key>

  /** Whether a key counts when the one with id `exclude` is left out. */
  predicate Considered(k: Key, exclude: string) {
    exclude == "" || k.id != exclude
  }

  predicate HasHash(items: Keys, hash: string, exclude: string) {
    exists i :: 0 <= i < |items| && Considered(items[i], exclude) && items[i].hash != "" && items[i].hash == hash
  }

  predicate HasName(items: Keys, name: string, role: Role, exclude: string) {
    exists i :: 0 <= i < |items| && Considered(items[i], exclude) && items[i].role == role && items[i].name == name
  }

  /** No two keys share their id, their hash, or their role and name; and none is blank. */
  predicate Unique(items: Keys) {
    && (forall i :: 0 <= i < |items| ==> items[i].id != "" && items[i].name != "" && items[i].hash != "")
    && (forall i, j :: 0 <= i < j < |items| ==> Apart(items[i], items[j]))
  }

  predicate Apart(a: Key, b: Key) {
    a.id != b.id && a.hash != b.hash && (a.role == b.role ==> a.name != b.name)
  }

  function Digit(n: nat): char
    requires n < 10
  {
    "0123456789"[n]
  }

  function Decimal(n: nat): (text: string)
    ensures |text| >= 1
  {
    if n < 10 then [Digit(n)] else Decimal(n / 10) + [Digit(n % 10)]
  }

  lemma {:induction false} DecimalIsInjective(m: nat, n: nat)
    requires Decimal(m) == Decimal(n)
    ensures m == n
  {
    assert Decimal(m)[|Decimal(m)| - 1] == Digit(m % 10);
    assert Decimal(n)[|Decimal(n)| - 1] == Digit(n % 10);
    if m >= 10 && n >= 10 {
      assert Decimal(m / 10) == Decimal(m)[..|Decimal(m)| - 1];
      assert Decimal(n / 10) == Decimal(n)[..|Decimal(n)| - 1];
      DecimalIsInjective(m / 10, n / 10);
    } else if m >= 10 || n >= 10 {
      assert |Decimal(m)| == |Decimal(n)|;
    }
  }

  const ADMIN_NAME := "\U{7BA1}\U{7406}\U{5458}\U{5BC6}\U{94A5}"
  const USER_NAME := "\U{666E}\U{901A}\U{7528}\U{6237}"

  function DefaultName(role: Role): string {
    if role == Admin then ADMIN_NAME else USER_NAME
  }

  /** The default names by the codes of their characters. */
  lemma DefaultNames()
    ensures DefaultName(Admin) == [0x7BA1 as char, 0x7406 as char, 0x5458 as char, 0x5BC6 as char, 0x94A5 as char]
    ensures DefaultName(User) == [0x666E as char, 0x901A as char, 0x7528 as char, 0x6237 as char]
  {
  }

  function Numbered(name: string, n: nat): string {
    name + " " + Decimal(n)
  }

  lemma {:induction false} NumberedIsInjective(name: string, m: nat, n: nat)
    requires Numbered(name, m) == Numbered(name, n)
    ensures m == n
  {
    assert Decimal(m) == Numbered(name, m)[|name| + 1..];
    assert Decimal(n) == Numbered(name, n)[|name| + 1..];
    DecimalIsInjective(m, n);
  }

  method HasHashLocked(items: Keys, hash: string, exclude: string) returns (found: bool)
    ensures found <==> HasHash(items, hash, exclude)
  {
    for i := 0 to |items|
      invariant forall j :: 0 <= j < i ==> !(Considered(items[j], exclude) && items[j].hash != "" && items[j].hash == hash)
    {
      if exclude != "" && items[i].id == exclude {
        continue;
      }
      if items[i].hash != "" && items[i].hash == hash {
        return true;
      }
    }
    found := false;
  }

  method HasNameLocked(items: Keys, name: string, role: Role, exclude: string) returns (found: bool)
    ensures found <==> HasName(items, name, role, exclude)
  {
    for i := 0 to |items|
      invariant forall j :: 0 <= j < i ==>
                  !(Considered(items[j], exclude) && items[j].role == role && items[j].name == name)
    {
      if exclude != "" && items[i].id == exclude {
        continue;
      }
      if items[i].role != role {
        continue;
      }
      if items[i].name == name {
        return true;
      }
    }
    found := false;
  }

  /** All names in the store: finitely many, so a name with a number is free sooner or later. */
  function Names(items: Keys): set<string> {
    set i | 0 <= i < |items| :: items[i].name
  }

  lemma {:induction false} UsedIsName(items: Keys, name: string, role: Role, exclude: string)
    requires HasName(items, name, role, exclude)
    ensures name in Names(items)
  {
  }

  /** The numbered names below `n`. */
  function NumberedBelow(plain: string, n: nat): set<string> {
    if n <= 2 then {} else NumberedBelow(plain, n - 1) + {Numbered(plain, n - 1)}
  }

  lemma {:induction false} NumberedAreDistinct(plain: string, n: nat, k: nat)
    requires 2 <= n <= k
    ensures |NumberedBelow(plain, n)| == n - 2 && Numbered(plain, k) !in NumberedBelow(plain, n)
  {
    if n > 2 {
      NumberedAreDistinct(plain, n - 1, n - 1);
      NumberedAreDistinct(plain, n - 1, k);
      if Numbered(plain, k) == Numbered(plain, n - 1) {
        NumberedIsInjective(plain, k, n - 1);
      }
    }
  }

  predicate TakenBelow(items: Keys, plain: string, role: Role, exclude: string, n: nat) {
    forall m :: 2 <= m < n ==> HasName(items, Numbered(plain, m), role, exclude)
  }

  lemma {:induction false} TakenAreNames(items: Keys, plain: string, role: Role, exclude: string, n: nat)
    requires TakenBelow(items, plain, role, exclude, n)
    ensures NumberedBelow(plain, n) <= Names(items)
  {
    if n > 2 {
      TakenAreNames(items, plain, role, exclude, n - 1);
      UsedIsName(items, Numbered(plain, n - 1), role, exclude);
    }
  }

  /** There are no more taken numbers than names in the store. */
  lemma {:induction false} FewAreTaken(items: Keys, plain: string, role: Role, exclude: string, n: nat)
    requires n >= 2 && TakenBelow(items, plain, role, exclude, n)
    ensures n - 2 <= |Names(items)|
  {
    TakenAreNames(items, plain, role, exclude, n);
    NumberedAreDistinct(plain, n, n);
    Sets.SubsetIsSmaller(NumberedBelow(plain, n), Names(items));
  }

  /** A default name: the plain one if it is free, else the first free one with a number from two on. */
  predicate IsDefaultName(items: Keys, name: string, role: Role, exclude: string) {
    var plain := DefaultName(role);
    if !HasName(items, plain, role, exclude) then name == plain
    else exists n :: 2 <= n <= |Names(items)| + 2 && FirstFree(items, plain, role, exclude, n) && name == Numbered(plain, n)
  }

  predicate FirstFree(items: Keys, plain: string, role: Role, exclude: string, n: nat) {
    && !HasName(items, Numbered(plain, n), role, exclude)
    && TakenBelow(items, plain, role, exclude, n)
  }

  /** The first free numbered name from `n` on. */
  function FreeFrom(items: Keys, plain: string, role: Role, exclude: string, n: nat): string
    requires n >= 2 && TakenBelow(items, plain, role, exclude, n)
    decreases |Names(items)| + 2 - n
  {
    FewAreTaken(items, plain, role, exclude, n);
    if HasName(items, Numbered(plain, n), role, exclude) then
      FewAreTaken(items, plain, role, exclude, n + 1);
      FreeFrom(items, plain, role, exclude, n + 1)
    else Numbered(plain, n)
  }

  function DefaultFor(items: Keys, role: Role, exclude: string): string {
    var plain := DefaultName(role);
    if HasName(items, plain, role, exclude) then FreeFrom(items, plain, role, exclude, 2) else plain
  }

  lemma {:induction false} FreeFromIsFirst(items: Keys, plain: string, role: Role, exclude: string, n: nat)
    returns (m: nat)
    requires n >= 2 && TakenBelow(items, plain, role, exclude, n)
    ensures n <= m <= |Names(items)| + 2 && FirstFree(items, plain, role, exclude, m)
    ensures FreeFrom(items, plain, role, exclude, n) == Numbered(plain, m)
    decreases |Names(items)| + 2 - n
  {
    FewAreTaken(items, plain, role, exclude, n);
    if HasName(items, Numbered(plain, n), role, exclude) {
      FewAreTaken(items, plain, role, exclude, n + 1);
      m := FreeFromIsFirst(items, plain, role, exclude, n + 1);
    } else {
      m := n;
    }
  }

  /** The default name is the plain one or the first free numbered one; either way it is free. */
  lemma {:induction false} DefaultIsFree(items: Keys, role: Role, exclude: string)
    ensures var name := DefaultFor(items, role, exclude);
            IsDefaultName(items, name, role, exclude) && !HasName(items, name, role, exclude) && name != ""
  {
    if HasName(items, DefaultName(role), role, exclude) {
      var m := FreeFromIsFirst(items, DefaultName(role), role, exclude, 2);
    }
  }

  method BuildDefaultName(items: Keys, role: Role, exclude: string) returns (name: string)
    ensures name == DefaultFor(items, role, exclude)
    ensures IsDefaultName(items, name, role, exclude)
    ensures !HasName(items, name, role, exclude) && name != ""
  {
    DefaultIsFree(items, role, exclude);
    var plain := DefaultName(role);
    var taken := HasNameLocked(items, plain, role, exclude);
    if !taken {
      return plain;
    }
    var suffix := 2;
    while true
      invariant 2 <= suffix && TakenBelow(items, plain, role, exclude, suffix)
      invariant FreeFrom(items, plain, role, exclude, suffix) == FreeFrom(items, plain, role, exclude, 2)
      decreases |Names(items)| + 2 - suffix
    {
      FewAreTaken(items, plain, role, exclude, suffix);
      var candidate := Numbered(plain, suffix);
      taken := HasNameLocked(items, candidate, role, exclude);
      if !taken {
        return candidate;
      }
      suffix := suffix + 1;
    }
  }

  datatype Refusal = NameInUse | KeyBlank | KeyIsAdminKey | KeyExists

  datatype Checked = Accepted(text: string) | Refused(why: Refusal)

  /** A blank name stands for a default one; any other is refused if it is taken. */
  function CheckedName(items: Keys, name: string, role: Role, exclude: string): Checked {
    if name == "" then Accepted(DefaultFor(items, role, exclude))
    else if HasName(items, name, role, exclude) then Refused(NameInUse)
    else Accepted(name)
  }

  method BuildName(items: Keys, name: string, role: Role, exclude: string) returns (r: Checked)
    ensures r == CheckedName(items, name, role, exclude)
    ensures name == "" ==> r.Accepted? && IsDefaultName(items, r.text, role, exclude)
    ensures r.Accepted? ==> r.text != "" && !HasName(items, r.text, role, exclude)
  {
    if name == "" {
      var text := BuildDefaultName(items, role, exclude);
      return Accepted(text);
    }
    var taken := HasNameLocked(items, name, role, exclude);
    r := if taken then Refused(NameInUse) else Accepted(name);
  }

  type Digest = string -> string

  ghost predicate NeverBlank(digest: Digest) {
    forall raw :: digest(raw) != ""
  }

  /** A key is refused if it is blank, the administrator's own, or already stored. */
  function CheckedHash(items: Keys, raw: string, adminKey: string, digest: Digest, exclude: string): Checked {
    if raw == "" then Refused(KeyBlank)
    else if adminKey != "" && raw == adminKey then Refused(KeyIsAdminKey)
    else if HasHash(items, digest(raw), exclude) then Refused(KeyExists)
    else Accepted(digest(raw))
  }

  method BuildKeyHash(items: Keys, raw: string, adminKey: string, digest: Digest, exclude: string)
    returns (r: Checked)
    ensures r == CheckedHash(items, raw, adminKey, digest, exclude)
  {
    if raw == "" {
      return Refused(KeyBlank);
    }
    if adminKey != "" && raw == adminKey {
      return Refused(KeyIsAdminKey);
    }
    var taken := HasHashLocked(items, digest(raw), exclude);
    r := if taken then Refused(KeyExists) else Accepted(digest(raw));
  }

  /** What an update asks for: nothing about a field, or a new value. */
  datatype Wish<T> = Keep | Change(value: T)

  datatype Updates = Updates(name: Wish<string>, enabled: Wish<bool>, key: Wish<string>)

  predicate Fresh(items: Keys, id: string) {
    id != "" && forall i :: 0 <= i < |items| ==> items[i].id != id
  }

  /** The first key with the id. */
  function IndexOf(items: Keys, id: string): (i: int)
    ensures -1 <= i < |items|
  {
    if items == [] then -1
    else if items[0].id == id then 0
    else
      var i := IndexOf(items[1..], id);
      if i < 0 then -1 else i + 1
  }

  lemma {:induction false} IndexOfFinds(items: Keys, id: string)
    ensures var i := IndexOf(items, id);
            if i < 0 then forall j :: 0 <= j < |items| ==> items[j].id != id
            else items[i].id == id && forall j :: 0 <= j < i ==> items[j].id != id
  {
    if items == [] {
    } else {
      IndexOfFinds(items[1..], id);
    }
  }

  /** Whether a request for an id, and possibly a role, means this key. */
  predicate Hit(k: Key, id: string, role: Wish<Role>) {
    k.id == id && (role.Keep? || k.role == role.value)
  }

  function Meant(id: string, role: Wish<Role>): Key -> bool {
    (k: Key) => Hit(k, id, role)
  }

  lemma {:induction false} AppendStaysUnique(items: Keys, k: Key)
    requires Unique(items) && Fresh(items, k.id) && k.hash != "" && k.name != ""
    requires !HasHash(items, k.hash, "") && !HasName(items, k.name, k.role, "")
    ensures Unique(items + [k])
  {
    forall i | 0 <= i < |items| ensures Apart(items[i], k) {
      assert Considered(items[i], "");
    }
  }

  lemma {:induction false} ReplaceStaysUnique(items: Keys, i: nat, k: Key)
    requires Unique(items) && i < |items| && k.id == items[i].id && k.role == items[i].role
    requires k.hash != "" && k.name != ""
    requires k.hash == items[i].hash || !HasHash(items, k.hash, k.id)
    requires k.name == items[i].name || !HasName(items, k.name, k.role, k.id)
    ensures Unique(items[i := k])
  {
    forall j | 0 <= j < |items| && j != i ensures Apart(items[j], k) && Apart(k, items[j]) {
      assert j < i ==> Apart(items[j], items[i]);
      assert i < j ==> Apart(items[i], items[j]);
      assert Considered(items[j], k.id);
    }
  }

  lemma {:induction false} TailIsUnique(items: Keys)
    requires Unique(items) && items != []
    ensures Unique(items[1..]) && forall k :: k in items[1..] ==> Apart(items[0], k)
  {
    var rest := items[1..];
    forall i, j | 0 <= i < j < |rest| ensures Apart(rest[i], rest[j]) {
      assert Apart(items[i + 1], items[j + 1]);
    }
  }

  lemma {:induction false} WithoutStaysUnique(items: Keys, id: string, role: Wish<Role>)
    requires Unique(items)
    ensures Unique(Without(items, Meant(id, role)))
  {
    if items == [] {
    } else {
      TailIsUnique(items);
      var left := Without(items[1..], Meant(id, role));
      WithoutStaysUnique(items[1..], id, role);
      forall j | 0 <= j < |left| ensures Apart(items[0], left[j]) {
        WithoutMembers(items[1..], Meant(id, role), left[j]);
      }
    }
  }

  datatype Creation = Created(key: Key, raw: string) | CreateRefused(why: Refusal) | StillDrawing

  datatype Result = Updated(key: Key) | UpdateRefused(why: Refusal) | NoSuchKey

  /** The first enabled key with the hash. */
  function Match(items: Keys, hash: string): Option<Key> {
    if items == [] then None
    else if items[0].enabled && items[0].hash == hash then Some(items[0])
    else Match(items[1..], hash)
  }

  lemma {:induction false} MatchFinds(items: Keys, hash: string)
    ensures match Match(items, hash)
            case None => forall k :: k in items && k.enabled ==> k.hash != hash
            case Some(k) => k in items && k.enabled && k.hash == hash
  {
    if items == [] {
    } else {
      MatchFinds(items[1..], hash);
    }
  }

  predicate NameRefused(items: Keys, was: Key, updates: Updates) {
    updates.name.Change? && updates.name.value != "" && HasName(items, updates.name.value, was.role, was.id)
  }

  predicate KeyRefused(items: Keys, was: Key, updates: Updates, adminKey: string, digest: Digest) {
    updates.key.Change? && CheckedHash(items, updates.key.value, adminKey, digest, was.id).Refused?
  }

  /** A revised key: what was not asked for stays, a name asked for blank becomes a default one. */
  predicate Revision(items: Keys, was: Key, updates: Updates, digest: Digest, k: Key) {
    && k.id == was.id && k.role == was.role
    && (updates.name.Keep? ==> k.name == was.name)
    && (updates.name.Change? && updates.name.value != "" ==> k.name == updates.name.value)
    && (updates.name == Change("") ==> IsDefaultName(items, k.name, was.role, was.id))
    && k.enabled == (if updates.enabled.Keep? then was.enabled else updates.enabled.value)
    && k.hash == (if updates.key.Keep? then was.hash else digest(updates.key.value))
  }

  /** The update is refused exactly if its name or its key is; otherwise the key is revised, clear of the others. */
  predicate RevisedTo(items: Keys, was: Key, updates: Updates, adminKey: string, digest: Digest, r: Result) {
    && r != NoSuchKey
    && (r.UpdateRefused? <==> NameRefused(items, was, updates) || KeyRefused(items, was, updates, adminKey, digest))
    && (r.Updated? ==>
          && Revision(items, was, updates, digest, r.key)
          && (r.key.name == was.name || (r.key.name != "" && !HasName(items, r.key.name, was.role, was.id)))
          && (r.key.hash == was.hash || !HasHash(items, r.key.hash, was.id)))
  }

  /** A key as an update leaves it, or the first reason why not. */
  function Revised(items: Keys, was: Key, updates: Updates, adminKey: string, digest: Digest): Result {
    var name := if updates.name.Keep? then Accepted(was.name) else CheckedName(items, updates.name.value, was.role, was.id);
    var hash := if updates.key.Keep? then Accepted(was.hash)
                else CheckedHash(items, updates.key.value, adminKey, digest, was.id);
    if name.Refused? then UpdateRefused(name.why)
    else if hash.Refused? then UpdateRefused(hash.why)
    else
      Updated(was.(name := name.text, hash := hash.text,
                   enabled := if updates.enabled.Keep? then was.enabled else updates.enabled.value))
  }

  lemma {:induction false} RevisedIsClear(items: Keys, was: Key, updates: Updates, adminKey: string, digest: Digest)
    ensures RevisedTo(items, was, updates, adminKey, digest, Revised(items, was, updates, adminKey, digest))
  {
    DefaultIsFree(items, was.role, was.id);
  }

  method Revise(items: Keys, was: Key, updates: Updates, adminKey: string, digest: Digest) returns (r: Result)
    ensures r == Revised(items, was, updates, adminKey, digest)
    ensures RevisedTo(items, was, updates, adminKey, digest, r)
  {
    RevisedIsClear(items, was, updates, adminKey, digest);
    var next := was;
    if updates.name.Change? {
      var name := BuildName(items, updates.name.value, was.role, was.id);
      if name.Refused? {
        return UpdateRefused(name.why);
      }
      next := next.(name := name.text);
    }
    if updates.enabled.Change? {
      next := next.(enabled := updates.enabled.value);
    }
    if updates.key.Change? {
      var hash := BuildKeyHash(items, updates.key.value, adminKey, digest, was.id);
      if hash.Refused? {
        return UpdateRefused(hash.why);
      }
      next := next.(hash := hash.text);
    }
    r := Updated(next);
  }

  /** The first of the drawn keys that is not refused. */
  function FirstUsable(items: Keys, draws: seq<string>, adminKey: string, digest: Digest): Option<string> {
    if draws == [] then None
    else if CheckedHash(items, draws[0], adminKey, digest, "").Accepted? then Some(draws[0])
    else FirstUsable(items, draws[1..], adminKey, digest)
  }

  lemma {:induction false} FirstUsableIsUsable(items: Keys, draws: seq<string>, adminKey: string, digest: Digest)
    ensures match FirstUsable(items, draws, adminKey, digest)
            case None => forall raw :: raw in draws ==> CheckedHash(items, raw, adminKey, digest, "").Refused?
            case Some(raw) => raw in draws && CheckedHash(items, raw, adminKey, digest, "").Accepted?
  {
    if draws == [] {
    } else {
      FirstUsableIsUsable(items, draws[1..], adminKey, digest);
      assert draws == [draws[0]] + draws[1..];
    }
  }

  /** What the callers ask for; a creation comes with its new id and the random keys in the order they are drawn. */
  datatype Request = Create(role: Role, name: string, id: string, draws: seq<string>)
                   | Update(id: string, updates: Updates, within: Wish<Role>)
                   | Delete(id: string, within: Wish<Role>)

  function AfterCreate(items: Keys, role: Role, name: string, id: string, draws: seq<string>, adminKey: string,
                       digest: Digest): Keys
  {
    match (CheckedName(items, name, role, ""), FirstUsable(items, draws, adminKey, digest))
    case (Accepted(text), Some(raw)) => items + [Key(id, text, role, digest(raw), true)]
    case _ => items
  }

  /** Whether an update request means the key it finds. */
  predicate Finds(items: Keys, id: string, role: Wish<Role>) {
    var i := IndexOf(items, id);
    id != "" && i >= 0 && (role.Keep? || items[i].role == role.value)
  }

  function AfterUpdate(items: Keys, id: string, updates: Updates, role: Wish<Role>, adminKey: string, digest: Digest): Keys {
    if !Finds(items, id, role) then items
    else
      var i := IndexOf(items, id);
      match Revised(items, items[i], updates, adminKey, digest)
      case Updated(k) => items[i := k]
      case _ => items
  }

  function AfterDelete(items: Keys, id: string, role: Wish<Role>): Keys {
    if id == "" then items else Without(items, Meant(id, role))
  }

  function After(items: Keys, request: Request, adminKey: string, digest: Digest): Keys {
    match request
    case Create(role, name, id, draws) => AfterCreate(items, role, name, id, draws, adminKey, digest)
    case Update(id, updates, role) => AfterUpdate(items, id, updates, role, adminKey, digest)
    case Delete(id, role) => AfterDelete(items, id, role)
  }

  lemma {:induction false} CreateStaysUnique(items: Keys, role: Role, name: string, id: string, draws: seq<string>,
                                             adminKey: string, digest: Digest)
    requires Unique(items) && Fresh(items, id) && NeverBlank(digest)
    ensures Unique(AfterCreate(items, role, name, id, draws, adminKey, digest))
  {
    DefaultIsFree(items, role, "");
    FirstUsableIsUsable(items, draws, adminKey, digest);
    var text, raw := CheckedName(items, name, role, ""), FirstUsable(items, draws, adminKey, digest);
    if text.Accepted? && raw.Some? {
      AppendStaysUnique(items, Key(id, text.text, role, digest(raw.value), true));
    }
  }

  lemma {:induction false} UpdateStaysUnique(items: Keys, id: string, updates: Updates, role: Wish<Role>,
                                             adminKey: string, digest: Digest)
    requires Unique(items) && NeverBlank(digest)
    ensures Unique(AfterUpdate(items, id, updates, role, adminKey, digest))
  {
    if Finds(items, id, role) {
      var i := IndexOf(items, id);
      IndexOfFinds(items, id);
      RevisedIsClear(items, items[i], updates, adminKey, digest);
      var r := Revised(items, items[i], updates, adminKey, digest);
      if r.Updated? {
        ReplaceStaysUnique(items, i, r.key);
      }
    }
  }

  // ---- Requests in terms of the stored keys ----

  /** Another key than the one at `i` has this name in its role. */
  predicate NameElsewhere(items: Keys, i: int, name: string, role: Role) {
    exists j :: 0 <= j < |items| && j != i && items[j].role == role && items[j].name == name
  }

  /** Another key than the one at `i` has this hash. */
  predicate HashElsewhere(items: Keys, i: int, hash: string) {
    exists j :: 0 <= j < |items| && j != i && items[j].hash == hash
  }

  lemma ElsewhereIsOthers(items: Keys, i: nat, name: string, role: Role, hash: string)
    requires Unique(items) && i < |items| && hash != ""
    ensures HasName(items, name, role, items[i].id) <==> NameElsewhere(items, i, name, role)
    ensures HasHash(items, hash, items[i].id) <==> HashElsewhere(items, i, hash)
  {
    forall j | 0 <= j < |items| ensures Considered(items[j], items[i].id) <==> j != i {
      assert j < i ==> Apart(items[j], items[i]);
      assert i < j ==> Apart(items[i], items[j]);
    }
  }

  /** A raw key that no stored key other than the one at `i` has, and that is neither blank nor the administrator's. */
  predicate Usable(items: Keys, i: int, raw: string, adminKey: string, digest: Digest) {
    raw != "" && raw != adminKey && !HashElsewhere(items, i, digest(raw))
  }

  /**
   An update of the key at `i` is refused exactly if another key of its role has the new name, or the new raw key
   is not usable; otherwise it changes just what was asked for.
   */
  lemma UpdateIsExact(items: Keys, i: nat, updates: Updates, adminKey: string, digest: Digest)
    requires Unique(items) && NeverBlank(digest) && i < |items|
    ensures var was := items[i]; var r := Revised(items, was, updates, adminKey, digest);
            && (r == UpdateRefused(NameInUse) <==>
                  updates.name.Change? && updates.name.value != "" && NameElsewhere(items, i, updates.name.value, was.role))
            && (r.Updated? <==> r != UpdateRefused(NameInUse)
                                && (updates.key.Change? ==> Usable(items, i, updates.key.value, adminKey, digest)))
            && (r.Updated? ==>
                  r.key == Key(was.id, if updates.name.Keep? then was.name
                                       else if updates.name.value != "" then updates.name.value
                                       else DefaultFor(items, was.role, was.id),
                               was.role, if updates.key.Keep? then was.hash else digest(updates.key.value),
                               if updates.enabled.Keep? then was.enabled else updates.enabled.value))
  {
    var was := items[i];
    ElsewhereIsOthers(items, i, if updates.name.Change? then updates.name.value else "", was.role,
                      digest(if updates.key.Change? then updates.key.value else ""));
  }

  lemma NowhereIsFree(items: Keys, name: string, role: Role, hash: string)
    requires hash != ""
    ensures HasName(items, name, role, "") <==> NameElsewhere(items, -1, name, role)
    ensures HasHash(items, hash, "") <==> HashElsewhere(items, -1, hash)
  {
    forall j | 0 <= j < |items| ensures Considered(items[j], "") {}
  }

  lemma {:induction false} FirstUsableIsFirst(items: Keys, draws: seq<string>, adminKey: string, digest: Digest)
    requires NeverBlank(digest)
    ensures var first := FirstUsable(items, draws, adminKey, digest);
            match first
            case None => forall k :: 0 <= k < |draws| ==> !Usable(items, -1, draws[k], adminKey, digest)
            case Some(raw) =>
              exists k :: 0 <= k < |draws| && draws[k] == raw && Usable(items, -1, raw, adminKey, digest)
                && forall j :: 0 <= j < k ==> !Usable(items, -1, draws[j], adminKey, digest)
  {
    if draws == [] {
    } else {
      NowhereIsFree(items, "", User, digest(draws[0]));
      FirstUsableIsFirst(items, draws[1..], adminKey, digest);
      if CheckedHash(items, draws[0], adminKey, digest, "").Refused? && FirstUsable(items, draws, adminKey, digest).Some? {
        var k :| 0 <= k < |draws| - 1 && draws[1..][k] == FirstUsable(items, draws, adminKey, digest).value
                 && Usable(items, -1, draws[1..][k], adminKey, digest)
                 && forall j :: 0 <= j < k ==> !Usable(items, -1, draws[1..][j], adminKey, digest);
        assert draws[k + 1] == draws[1..][k];
        forall j | 0 <= j < k + 1 ensures !Usable(items, -1, draws[j], adminKey, digest) {
          assert j > 0 ==> draws[j] == draws[1..][j - 1];
        }
      }
    }
  }

  /** A creation appends an enabled key, unless its name is taken in its role or no drawn key is usable. */
  lemma CreateIsExact(items: Keys, role: Role, name: string, id: string, draws: seq<string>, adminKey: string, digest: Digest)
    requires NeverBlank(digest)
    ensures var refused := name != "" && NameElsewhere(items, -1, name, role);
            var first := FirstUsable(items, draws, adminKey, digest);
            AfterCreate(items, role, name, id, draws, adminKey, digest)
            == if refused || first == None then items
               else items + [Key(id, if name == "" then DefaultFor(items, role, "") else name, role, digest(first.value), true)]
  {
    NowhereIsFree(items, name, role, digest(name));
  }

  /** The first key with the id, if the request leaves its role open or names it. */
  lemma FindsIsExact(items: Keys, id: string, role: Wish<Role>)
    ensures Finds(items, id, role)
       <==> id != "" && exists i :: 0 <= i < |items| && items[i].id == id && (role == Keep || role == Change(items[i].role))
                          && forall j :: 0 <= j < i ==> items[j].id != id
  {
    IndexOfFinds(items, id);
  }

  /** A deletion leaves exactly the keys of another id, or of another role than the one asked for. */
  lemma DeleteIsExact(items: Keys, id: string, role: Wish<Role>, k: Key)
    ensures k in AfterDelete(items, id, role)
       <==> k in items && (id == "" || k.id != id || (role.Change? && role.value != k.role))
  {
    WithoutMembers(items, Meant(id, role), k);
  }

  class AuthService {
    const adminKey: string
    const digest: Digest
    var items: Keys

    constructor (items: Keys, adminKey: string, digest: Digest)
      ensures this.items == items && this.adminKey == adminKey && this.digest == digest
    {
      this.items, this.adminKey, this.digest := items, adminKey, digest;
    }

    /** `draws` are the random keys in the order in which they come; `id` is a new one. */
    method CreateKey(role: Role, name: string, id: string, draws: seq<string>) returns (r: Creation)
      modifies this
      ensures items == AfterCreate(old(items), role, name, id, draws, adminKey, digest)
      ensures Unique(old(items)) && Fresh(old(items), id) && NeverBlank(digest) ==> Unique(items)
      ensures r.CreateRefused? <==> name != "" && HasName(old(items), name, role, "")
      ensures r.Created? ==>
                && items == old(items) + [r.key] && r.key == Key(id, r.key.name, role, digest(r.raw), true)
                && (if name == "" then IsDefaultName(old(items), r.key.name, role, "") else r.key.name == name)
                && FirstUsable(old(items), draws, adminKey, digest) == Some(r.raw)
      ensures !r.Created? ==> items == old(items)
      ensures r.StillDrawing? ==> FirstUsable(items, draws, adminKey, digest) == None
    {
      if Unique(items) && Fresh(items, id) && NeverBlank(digest) {
        CreateStaysUnique(items, role, name, id, draws, adminKey, digest);
      }
      var built := BuildName(items, name, role, "");
      if built.Refused? {
        return CreateRefused(built.why);
      }
      for i := 0 to |draws|
        invariant items == old(items)
        invariant FirstUsable(items, draws, adminKey, digest) == FirstUsable(items, draws[i..], adminKey, digest)
      {
        var hash := BuildKeyHash(items, draws[i], adminKey, digest, "");
        assert draws[i..][1..] == draws[i + 1..];
        if hash.Accepted? {
          var key := Key(id, built.text, role, hash.text, true);
          items := items + [key];
          return Created(key, draws[i]);
        }
      }
      r := StillDrawing;
    }

    method FindKey(id: string) returns (index: int)
      ensures index == IndexOf(items, id)
    {
      for i := 0 to |items|
        invariant IndexOf(items, id) == if IndexOf(items[i..], id) < 0 then -1 else i + IndexOf(items[i..], id)
      {
        assert items[i..][1..] == items[i + 1..];
        if items[i].id == id {
          return i;
        }
      }
      index := -1;
    }

    method UpdateKey(id: string, updates: Updates, role: Wish<Role>) returns (r: Result)
      modifies this
      ensures items == AfterUpdate(old(items), id, updates, role, adminKey, digest)
      ensures Unique(old(items)) && NeverBlank(digest) ==> Unique(items)
      ensures r.NoSuchKey? <==> !Finds(old(items), id, role)
      ensures var i := IndexOf(old(items), id);
              r != NoSuchKey ==> i >= 0 && RevisedTo(old(items), old(items)[i], updates, adminKey, digest, r)
      ensures items == if r.Updated? then old(items)[IndexOf(old(items), id) := r.key] else old(items)
    {
      if Unique(items) && NeverBlank(digest) {
        UpdateStaysUnique(items, id, updates, role, adminKey, digest);
      }
      if id == "" {
        return NoSuchKey;
      }
      var index := FindKey(id);
      IndexOfFinds(items, id);
      if index < 0 {
        return NoSuchKey;
      }
      if role.Change? && items[index].role != role.value {
        return NoSuchKey;
      }
      r := Revise(items, items[index], updates, adminKey, digest);
      if r.Updated? {
        items := items[index := r.key];
      }
    }

    method DeleteKey(id: string, role: Wish<Role>) returns (deleted: bool)
      modifies this
      ensures items == AfterDelete(old(items), id, role)
      ensures Unique(old(items)) ==> Unique(items)
      ensures deleted <==> id != "" && exists i :: 0 <= i < |old(items)| && Hit(old(items)[i], id, role)
      ensures forall k :: k in items <==> k in old(items) && (id == "" || !Hit(k, id, role))
    {
      if id == "" {
        return false;
      }
      var doomed := Meant(id, role);
      if Unique(items) {
        WithoutStaysUnique(items, id, role);
      }
      WithoutIsShorter(items, doomed);
      forall k ensures k in Without(items, doomed) <==> k in items && !Hit(k, id, role) {
        WithoutMembers(items, doomed, k);
      }
      var kept := LeaveOut(items, doomed);
      deleted := |kept| != |items|;
      items := kept;
    }

    /** The stored key that a raw key stands for. */
    method Authenticate(raw: string) returns (key: Option<Key>)
      ensures key == if raw == "" then None else Match(items, digest(raw))
    {
      if raw == "" {
        return None;
      }
      var hash := digest(raw);
      for i := 0 to |items|
        invariant Match(items, hash) == Match(items[i..], hash)
      {
        assert items[i..][1..] == items[i + 1..];
        if items[i].enabled && items[i].hash == hash {
          return Some(items[i]);
        }
      }
      key := None;
    }
  }

  /** In a store of unique keys a raw key stands for one key at most, wherever it is. */
  lemma {:induction false} MatchIsUnique(items: Keys, k: Key)
    requires Unique(items) && k in items
    ensures Match(items, k.hash) == if k.enabled then Some(k) else None
  {
    MatchFinds(items, k.hash);
    forall other | other in items && other.hash == k.hash ensures other == k {
      var i :| 0 <= i < |items| && items[i] == k;
      var j :| 0 <= j < |items| && items[j] == other;
      assert i < j ==> Apart(items[i], items[j]);
      assert j < i ==> Apart(items[j], items[i]);
    }
  }

  /** A deleted key stands for nothing any more. */
  lemma {:induction false} DeletedMatchesNothing(items: Keys, k: Key, role: Wish<Role>)
    requires Unique(items) && k in items && (role.Keep? || role.value == k.role)
    ensures Match(Without(items, Meant(k.id, role)), k.hash) == None
  {
    var left := Without(items, Meant(k.id, role));
    MatchFinds(left, k.hash);
    forall other | other in left ensures other.hash != k.hash {
      WithoutMembers(items, Meant(k.id, role), other);
      var i :| 0 <= i < |items| && items[i] == k;
      var j :| 0 <= j < |items| && items[j] == other;
      assert i < j ==> Apart(items[i], items[j]);
      assert j < i ==> Apart(items[j], items[i]);
    }
  }

  function Run(items: Keys, requests: seq<Request>, adminKey: string, digest: Digest): Keys {
    if requests == [] then items
    else After(Run(items, requests[..|requests| - 1], adminKey, digest), requests[|requests| - 1], adminKey, digest)
  }

  /** Every created key comes with an id that is not in the store then. */
  predicate FreshIds(items: Keys, requests: seq<Request>, adminKey: string, digest: Digest) {
    requests == [] ||
    var front, last := requests[..|requests| - 1], requests[|requests| - 1];
    FreshIds(items, front, adminKey, digest)
    && (last.Create? ==> Fresh(Run(items, front, adminKey, digest), last.id))
  }

  /** Every run of create, update and delete requests keeps ids, hashes, and names within a role unique. */
  lemma {:induction false} RunsStayUnique(items: Keys, requests: seq<Request>, adminKey: string, digest: Digest)
    requires Unique(items) && NeverBlank(digest) && FreshIds(items, requests, adminKey, digest)
    ensures Unique(Run(items, requests, adminKey, digest))
  {
    if requests == [] {
    } else {
      var mid := Run(items, requests[..|requests| - 1], adminKey, digest);
      RunsStayUnique(items, requests[..|requests| - 1], adminKey, digest);
      match requests[|requests| - 1]
      case Create(role, name, id, draws) => CreateStaysUnique(mid, role, name, id, draws, adminKey, digest);
      case Update(id, updates, role) => UpdateStaysUnique(mid, id, updates, role, adminKey, digest);
      case Delete(id, role) => WithoutStaysUnique(mid, id, role);
    }
  }
}
