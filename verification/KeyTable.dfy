/** coderd's provisioner-key table and the client calls that read and change it.

    A key's plaintext (`material`) leaves coderd once, in the answer to the call that
    creates the key; every later lookup answers with metadata only. */
module KeyTable {

  type Tags = map<string, string>

  datatype KeyRef = KeyRef(url: string, org: string, name: string)
  datatype Key = Key(id: nat, tags: Tags, material: string)
  type Keys = map<KeyRef, Key>

  /** How a remote call ended for its caller. A call that failed, or during which the
      operator process died, may or may not have taken effect first. */
  datatype Reply = Done | Failed(applied: bool) | Crashed(applied: bool) {
    predicate Effective() {
      Done? || applied
    }
  }

  /** What coderd would hand out if it created a key now; id 0 stands for the nil UUID. */
  datatype Mint = Mint(id: nat, material: string)

  datatype Ensured = Existing(id: nat) | Created(id: nat, material: string) | EnsureFailed | EnsureCrashed
  datatype Removed = Gone | RemoveFailed | RemoveCrashed

  predicate ValidRef(ref: KeyRef) {
    ref.url != "" && ref.name != ""
  }

  /** The table after an ensure call, and the answer. */
  function EnsureKey(keys: Keys, ref: KeyRef, tags: Tags, mint: Mint, reply: Reply): (Keys, Ensured) {
    var lost := if reply.Crashed? then EnsureCrashed else EnsureFailed;
    if !ValidRef(ref) then
      (keys, lost)
    else if ref in keys then
      (keys, if !reply.Done? || keys[ref].id == 0 then lost else Existing(keys[ref].id))
    else if !reply.Effective() then
      (keys, lost)
    else
      (keys[ref := Key(mint.id, tags, mint.material)],
       if !reply.Done? || mint.material == "" || mint.id == 0 then lost else Created(mint.id, mint.material))
  }

  /** The table after a delete call, and the answer; a missing key counts as deleted. */
  function RemoveKey(keys: Keys, ref: KeyRef, reply: Reply): (Keys, Removed) {
    var lost := if reply.Crashed? then RemoveCrashed else RemoveFailed;
    if !ValidRef(ref) then
      (keys, lost)
    else
      (if reply.Effective() then keys - {ref} else keys, if reply.Done? then Gone else lost)
  }

  /** An ensure call touches no other key, never overwrites an existing one, and an answer
      that carries plaintext describes the key now stored. */
  lemma EnsureKeyMeaning(keys: Keys, ref: KeyRef, tags: Tags, mint: Mint, reply: Reply)
    ensures var (keys', r) := EnsureKey(keys, ref, tags, mint, reply);
            && keys' - {ref} == keys - {ref}
            && (ref in keys ==> keys' == keys)
            && (r.Created? ==> r.material != "" && ref !in keys && ref in keys' && keys'[ref] == Key(r.id, tags, r.material))
            && (r.Existing? ==> ref in keys && keys[ref].id == r.id)
  {
    assert ref !in keys ==> keys[ref := Key(mint.id, tags, mint.material)] - {ref} == keys - {ref};
  }

  // ----- Listing scan -----

  datatype Row = Row(name: string, id: nat)
  datatype Match = NoMatch | One(row: Row) | Many

  /** `rows` is a faithful answer to "list the keys of this organization". */
  ghost predicate IsListing(rows: seq<Row>, keys: Keys, url: string, org: string) {
    && (forall i, j :: 0 <= i < j < |rows| ==> rows[i].name != rows[j].name)
    && (forall i :: 0 <= i < |rows| ==>
          KeyRef(url, org, rows[i].name) in keys && keys[KeyRef(url, org, rows[i].name)].id == rows[i].id)
    && (forall ref :: ref in keys && ref.url == url && ref.org == org ==>
          exists i :: 0 <= i < |rows| && rows[i].name == ref.name)
  }

  /** coderd's answer to "list the keys of this organization", in whatever order. */
  type Lister = (Keys, string, string) -> seq<Row>

  ghost predicate ListsKeys(list: Lister) {
    forall keys, url, org :: IsListing(list(keys, url, org), keys, url, org)
  }

  /** Scans a listing for a name; two hits are an error rather than a choice. */
  method FindKey(rows: seq<Row>, name: string) returns (r: Match)
    ensures r.NoMatch? <==> forall i :: 0 <= i < |rows| ==> rows[i].name != name
    ensures r.One? <==> exists i :: 0 <= i < |rows| && rows[i].name == name &&
                                    forall j :: 0 <= j < |rows| && j != i ==> rows[j].name != name
    ensures r.One? ==> r.row in rows && r.row.name == name
  {
    r := NoMatch;
    for i := 0 to |rows|
      invariant !r.Many?
      invariant r.NoMatch? ==> forall j :: 0 <= j < i ==> rows[j].name != name
      invariant r.One? ==> exists k :: 0 <= k < i && rows[k] == r.row && rows[k].name == name &&
                                       forall j :: 0 <= j < i && j != k ==> rows[j].name != name
    {
      if rows[i].name == name {
        if r.One? {
          return Many;
        }
        r := One(rows[i]);
      }
    }
  }

  /** On a faithful listing the scan is exactly the table lookup, and never ambiguous. */
  method LookUp(rows: seq<Row>, ghost keys: Keys, ref: KeyRef) returns (r: Match)
    requires IsListing(rows, keys, ref.url, ref.org)
    ensures r == if ref in keys then One(Row(ref.name, keys[ref].id)) else NoMatch
  {
    r := FindKey(rows, ref.name);
    if ref in keys {
      var i :| 0 <= i < |rows| && rows[i].name == ref.name;
      assert forall j :: 0 <= j < |rows| && j != i ==> rows[j].name != rows[i].name;
      assert KeyRef(ref.url, ref.org, rows[i].name) == ref;
    } else {
      forall i | 0 <= i < |rows| ensures rows[i].name != ref.name {
        assert KeyRef(ref.url, ref.org, rows[i].name) in keys;
      }
    }
  }
}
