/** The bookings list page (src/pages/BookingsList.jsx): which bookings a
    visitor sees, the room shown with each, and the delete and inline-edit
    handlers. Bookings are store records; the page adds a `room` field. */
module BookingsList {
  import opened Wrappers
  import opened Json
  import Seqs

  /** The fields the inline edit form holds. */
  const EditKeys: set<string> := {"guestName", "checkIn", "checkOut"}

  const LoadFailed := "Failed to load bookings."

  /** `booking.userId === user.id` (strict equality, so two missing fields
      are equal too). */
  function OwnedBy(user: Record): Record -> bool
  {
    (b: Record) => Get(b, "userId") == Get(user, "id")
  }

  /** The role filter: a signed-in visitor who is not an admin sees only the
      bookings with their user id, in the fetched order; an admin, or a
      visitor with no user signed in, sees every fetched booking. */
  function Visible(data: seq<Record>, user: Option<Record>, isAdmin: bool): (r: seq<Record>)
    ensures !isAdmin && user.Some? ==> Seqs.SelectsInOrder(r, data, OwnedBy(user.value))
    ensures !isAdmin && user.Some? ==>
              forall b :: b in r <==> b in data && Get(b, "userId") == Get(user.value, "id")
    ensures isAdmin || user.None? ==> r == data
  {
    if !isAdmin && user.Some? then
      var p := OwnedBy(user.value);
      Seqs.FilterSelectsInOrder(data, p);
      var r := Seqs.Filter(data, p);
      assert forall b :: b in r <==> b in data && p(b) by {
        forall b ensures b in r <==> b in data && p(b) {
          Seqs.SelectionMembers(r, data, p, b);
        }
      }
      r
    else data
  }

  /** The room shown with a booking: what the store answers for its
      `roomId`, or `null` when that lookup fails. */
  function RoomOf(lookup: Option<Value> -> Reply<Value>, b: Record): Value
  {
    match lookup(Get(b, "roomId"))
    case Ok(room) => room
    case Err(_) => Null
  }

  function WithRoom(lookup: Option<Value> -> Reply<Value>): Record -> Record
  {
    (b: Record) => b["room" := RoomOf(lookup, b)]
  }

  /** `{...booking, room}` for every booking: same length and order, each
      booking keeps its own fields and gains its room. */
  function Enrich(bs: seq<Record>, lookup: Option<Value> -> Reply<Value>): (r: seq<Record>)
    ensures |r| == |bs|
    ensures forall i :: 0 <= i < |bs| ==>
              && r[i].Keys == bs[i].Keys + {"room"}
              && r[i]["room"] == RoomOf(lookup, bs[i])
              && forall k :: k in bs[i] && k != "room" ==> r[i][k] == bs[i][k]
  {
    Seqs.MapAll(bs, WithRoom(lookup))
  }

  function HasId(id: Value): Record -> bool { (b: Record) => Get(b, "id") == Some(id) }
  function NotId(id: Value): Record -> bool { (b: Record) => Get(b, "id") != Some(id) }

  /** `bookings.filter((b) => b.id !== id)`: exactly the bookings with that
      id go, the rest keep their order. */
  function RemoveBooking(bs: seq<Record>, id: Value): (r: seq<Record>)
    ensures Seqs.SelectsInOrder(r, bs, NotId(id))
    ensures forall b :: b in r <==> b in bs && Get(b, "id") != Some(id)
  {
    Seqs.FilterSelectsInOrder(bs, NotId(id));
    var r := Seqs.Filter(bs, NotId(id));
    forall b ensures b in r <==> b in bs && Get(b, "id") != Some(id) {
      Seqs.SelectionMembers(r, bs, NotId(id), b);
    }
    r
  }

  /** The edit form filled from a booking: its guest name and dates and
      nothing else (a missing field stays missing). */
  function EditFormOf(b: Record): (f: Record)
    ensures f.Keys <= EditKeys
    ensures forall k :: k in EditKeys ==> Get(f, k) == Get(b, k)
  {
    Restrict(b, EditKeys)
  }

  /** `bookings.find((b) => b.id === id)`, spread as `{}` when not found. */
  function Stored(bs: seq<Record>, id: Value): (r: Record)
    ensures (forall i :: 0 <= i < |bs| ==> !HasId(id)(bs[i])) ==> r == map[]
    ensures forall i :: 0 <= i < |bs| && HasId(id)(bs[i]) && Seqs.IsFirst(bs, HasId(id), i) ==> r == bs[i]
  {
    Seqs.Find(bs, HasId(id)).GetOr(map[])
  }

  /** The body of the update request: the stored booking's fields,
      overwritten by the fields of the edit form. */
  function SaveBody(bs: seq<Record>, id: Value, editForm: Record): (body: Record)
    ensures body.Keys == Stored(bs, id).Keys + editForm.Keys
    ensures forall k :: k in editForm ==> body[k] == editForm[k]
    ensures forall k :: k !in editForm ==> Get(body, k) == Get(Stored(bs, id), k)
  {
    Stored(bs, id) + editForm
  }

  /** Saving an edit made through the edit form changes at most the guest
      name and the dates of the first booking with that id. */
  lemma {:induction false} SaveBodyKeepsOtherFields(bs: seq<Record>, i: nat, editForm: Record)
    requires i < |bs| && "id" in bs[i]
    requires forall j :: 0 <= j < i ==> Get(bs[j], "id") != Get(bs[i], "id")
    requires editForm.Keys <= EditKeys
    ensures forall k :: k !in EditKeys ==> Get(SaveBody(bs, bs[i]["id"], editForm), k) == Get(bs[i], k)
    ensures forall k :: k in editForm ==> SaveBody(bs, bs[i]["id"], editForm)[k] == editForm[k]
  {
    var id := bs[i]["id"];
    var found := Seqs.Find(bs, HasId(id));
    assert HasId(id)(bs[i]);
    var j :| 0 <= j < |bs| && bs[j] == found.value && HasId(id)(bs[j]) && Seqs.IsFirst(bs, HasId(id), j);
    assert !(j < i) && !(i < j);
    assert Stored(bs, id) == bs[i];
  }

  /** The stored booking is itself an enriched entry, so the update request
      also sends its `room` object back to the store. */
  lemma SaveBodyCarriesRoom(bs: seq<Record>, id: Value, editForm: Record)
    requires "room" in Stored(bs, id) && "room" !in editForm
    ensures "room" in SaveBody(bs, id, editForm)
    ensures SaveBody(bs, id, editForm)["room"] == Stored(bs, id)["room"]
  {
  }

  function MergeWith(updated: Record): Record -> Record { (b: Record) => b + updated }

  /** `bookings.map((b) => b.id === id ? {...b, ...updatedBooking} : b)`:
      the list keeps its length; each booking with that id takes the
      fields of the store's answer over its own; the others stay. */
  function MergeSaved(bs: seq<Record>, id: Value, updated: Record): (r: seq<Record>)
    ensures |r| == |bs|
    ensures forall i :: 0 <= i < |bs| && Get(bs[i], "id") == Some(id) ==> r[i] == bs[i] + updated
    ensures forall i :: 0 <= i < |bs| && Get(bs[i], "id") != Some(id) ==> r[i] == bs[i]
  {
    Seqs.UpdateWhere(bs, HasId(id), MergeWith(updated))
  }

  class Page {
    var bookings: seq<Record>
    var loading: bool
    var error: Option<string>
    var editingId: Option<Value>
    var editForm: Record

    constructor ()
      ensures bookings == [] && loading && error == None && editingId == None && editForm == map[]
    {
      bookings, loading, error, editingId, editForm := [], true, None, None, map[];
    }

    /** The mount effect (fetchBookings): `data` is the store's answer for
        all bookings and `lookup` its answer for each room id. */
    method FetchBookings(user: Option<Record>, isAdmin: bool, data: Reply<seq<Record>>,
                         lookup: Option<Value> -> Reply<Value>)
      modifies this`bookings, this`error, this`loading
      ensures data.Ok? ==> bookings == Enrich(Visible(data.value, user, isAdmin), lookup) && error == old(error)
      ensures data.Err? ==> bookings == old(bookings) && error == Some(LoadFailed)
      ensures !loading
    {
      if data.Ok? {
        var filtered := Visible(data.value, user, isAdmin);
        bookings := Enrich(filtered, lookup);
      } else {
        error := Some(LoadFailed);
      }
      loading := false;
    }

    /** handleDelete: asks for confirmation, deletes in the store (`reply`)
        and drops the booking from the list. Returns whether the store was
        asked. */
    method HandleDelete(id: Value, confirmed: bool, reply: Reply<()>) returns (requested: bool)
      modifies this`bookings
      ensures requested == confirmed
      ensures bookings == if confirmed && reply.Ok? then RemoveBooking(old(bookings), id) else old(bookings)
    {
      requested := confirmed;
      if confirmed && reply.Ok? {
        bookings := RemoveBooking(bookings, id);
      }
    }

    /** handleEdit: the chosen booking is being edited. */
    method HandleEdit(b: Record)
      modifies this`editingId, this`editForm
      ensures editingId == Get(b, "id") && editForm == EditFormOf(b)
    {
      editingId := Get(b, "id");
      editForm := EditFormOf(b);
    }

    /** The three inputs of the edit form: `{...editForm, [key]: value}`. */
    method HandleEditField(key: string, value: Value)
      requires key in EditKeys
      modifies this`editForm
      ensures editForm == old(editForm)[key := value]
    {
      editForm := editForm[key := value];
    }

    /** handleCancelEdit. */
    method HandleCancelEdit()
      modifies this`editingId, this`editForm
      ensures editingId == None && editForm == map[]
    {
      editingId := None;
      editForm := map[];
    }

    /** handleSaveEdit: sends the merged record to the store; `reply` is the
        stored booking. On success the list takes it and editing ends; on
        failure nothing changes. */
    method HandleSaveEdit(id: Value, reply: Reply<Record>) returns (body: Record)
      modifies this`bookings, this`editingId, this`editForm
      ensures body == SaveBody(old(bookings), id, old(editForm))
      ensures reply.Ok? ==> bookings == MergeSaved(old(bookings), id, reply.value) &&
                            editingId == None && editForm == map[]
      ensures reply.Err? ==> bookings == old(bookings) && editingId == old(editingId) &&
                             editForm == old(editForm)
    {
      body := SaveBody(bookings, id, editForm);
      if reply.Ok? {
        bookings := MergeSaved(bookings, id, reply.value);
        editingId := None;
        editForm := map[];
      }
    }
  }
}
