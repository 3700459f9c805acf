/** The room-management console (src/pages/Admin.jsx): the room list, the
    room form and the handlers that create, edit and delete rooms. */
module AdminConsole {
  import opened Wrappers
  import Seqs
  import Amenities

  type RoomId = int

  /** A room as the store returns it. Price and capacity are carried as the
      text the form holds; the numeric conversions are not modelled. */
  datatype Room = Room(
    id: RoomId,
    name: string,
    roomType: string,
    price: string,
    capacity: string,
    description: string,
    image: string,
    amenities: Option<seq<string>>)

  /** The body sent to the store when a room is saved (`roomData`). */
  datatype RoomData = RoomData(
    name: string,
    roomType: string,
    price: string,
    capacity: string,
    description: string,
    image: string,
    amenities: seq<string>)

  /** The form state: every input is text. */
  datatype RoomForm = RoomForm(
    name: string,
    roomType: string,
    price: string,
    capacity: string,
    description: string,
    image: string,
    amenities: string)

  /** The `name` attribute of each form input. */
  datatype Field = Name | RoomType | Price | Capacity | Description | Image | AmenitiesText

  /** The store call a submit makes. */
  datatype RoomRequest = UpdateRoom(id: RoomId, data: RoomData) | CreateRoom(data: RoomData)

  const EmptyForm := RoomForm("", "", "", "", "", "", "")

  /** `formData[field]`. */
  function FieldValue(form: RoomForm, field: Field): string
  {
    match field
    case Name => form.name
    case RoomType => form.roomType
    case Price => form.price
    case Capacity => form.capacity
    case Description => form.description
    case Image => form.image
    case AmenitiesText => form.amenities
  }

  /** `{...formData, [field]: value}` (handleInputChange): the named input
      takes the new text and every other input keeps its own. */
  function WithField(form: RoomForm, field: Field, value: string): (r: RoomForm)
    ensures FieldValue(r, field) == value
    ensures forall g :: g != field ==> FieldValue(r, g) == FieldValue(form, g)
  {
    match field
    case Name => form.(name := value)
    case RoomType => form.(roomType := value)
    case Price => form.(price := value)
    case Capacity => form.(capacity := value)
    case Description => form.(description := value)
    case Image => form.(image := value)
    case AmenitiesText => form.(amenities := value)
  }

  /** The body built from the form on submit: the inputs as typed, with
      the amenities text parsed into a list. */
  function ToRoomData(form: RoomForm): (d: RoomData)
    ensures forall a :: a in d.amenities ==> Amenities.WellFormed(a)
  {
    Amenities.ParsedAreWellFormed(form.amenities);
    RoomData(form.name, form.roomType, form.price, form.capacity,
             form.description, form.image, Amenities.Parse(form.amenities))
  }

  /** The form filled in from a room (handleEdit); a room without an
      amenities list shows an empty amenities input. */
  function FormOf(room: Room): RoomForm
  {
    RoomForm(room.name, room.roomType, room.price, room.capacity,
             room.description, room.image,
             match room.amenities
             case Some(xs) => Amenities.Render(xs)
             case None => "")
  }

  /** Editing a room and saving it without touching the form sends the
      room's own fields and its own amenities list (none becomes the empty
      list), provided each amenity is well-formed. */
  lemma EditThenSubmit(room: Room)
    requires room.amenities.Some? ==> forall a :: a in room.amenities.value ==> Amenities.WellFormed(a)
    ensures ToRoomData(FormOf(room)) == RoomData(room.name, room.roomType, room.price, room.capacity,
                                                room.description, room.image,
                                                room.amenities.GetOr([]))
  {
    match room.amenities
    case Some(xs) => Amenities.RenderThenParse(xs);
    case None => Amenities.RenderThenParse([]);
  }

  /** The room-id test of `editingId` (`if (editingId)`): a JavaScript
      truthiness test, so no id and the id 0 both mean "create". */
  predicate Editing(editingId: Option<RoomId>)
  {
    editingId.Some? && editingId.value != 0
  }

  function HasId(id: RoomId): Room -> bool { (r: Room) => r.id == id }
  function NotId(id: RoomId): Room -> bool { (r: Room) => r.id != id }

  /** The update path: every room with the edited id is replaced by the
      stored room; the others stay, in place. */
  function ReplaceRoom(rooms: seq<Room>, id: RoomId, updated: Room): (r: seq<Room>)
    ensures |r| == |rooms|
    ensures forall i :: 0 <= i < |rooms| && rooms[i].id == id ==> r[i] == updated
    ensures forall i :: 0 <= i < |rooms| && rooms[i].id != id ==> r[i] == rooms[i]
  {
    Seqs.UpdateWhere(rooms, HasId(id), _ => updated)
  }

  /** The delete path: exactly the rooms with the deleted id go, the rest
      keep their relative order. */
  function RemoveRoom(rooms: seq<Room>, id: RoomId): (r: seq<Room>)
    ensures Seqs.SelectsInOrder(r, rooms, NotId(id))
    ensures forall x :: x in r <==> x in rooms && x.id != id
  {
    Seqs.FilterSelectsInOrder(rooms, NotId(id));
    var r := Seqs.Filter(rooms, NotId(id));
    forall x ensures x in r <==> x in rooms && x.id != id {
      Seqs.SelectionMembers(r, rooms, NotId(id), x);
    }
    r
  }

  class Console {
    var rooms: seq<Room>
    var loading: bool
    var showForm: bool
    var editingId: Option<RoomId>
    var formData: RoomForm

    constructor ()
      ensures rooms == [] && loading && !showForm && editingId == None && formData == EmptyForm
    {
      rooms, loading, showForm, editingId, formData := [], true, false, None, EmptyForm;
    }

    /** The mount effect (fetchRooms): the fetched rooms replace the list; a
        failed fetch keeps it. Loading ends either way. */
    method FetchRooms(reply: Reply<seq<Room>>)
      modifies this
      ensures rooms == (if reply.Ok? then reply.value else old(rooms))
      ensures !loading
      ensures showForm == old(showForm) && editingId == old(editingId) && formData == old(formData)
    {
      if reply.Ok? {
        rooms := reply.value;
      }
      loading := false;
    }

    method HandleInputChange(field: Field, value: string)
      modifies this`formData
      ensures formData == WithField(old(formData), field, value)
    {
      formData := WithField(formData, field, value);
    }

    /** resetForm: every input empty, no room being edited, form hidden. */
    method ResetForm()
      modifies this`formData, this`editingId, this`showForm
      ensures formData == EmptyForm && editingId == None && !showForm
    {
      formData := EmptyForm;
      editingId := None;
      showForm := false;
    }

    /** The "Add New Room" / "Cancel" button. */
    method ToggleForm()
      modifies this`showForm
      ensures showForm == !old(showForm)
    {
      showForm := !showForm;
    }

    /** handleEdit: the form shows the room and remembers its id. */
    method HandleEdit(room: Room)
      modifies this`formData, this`editingId, this`showForm
      ensures formData == FormOf(room) && editingId == Some(room.id) && showForm
    {
      formData := FormOf(room);
      editingId := Some(room.id);
      showForm := true;
    }

    /** handleSubmit: sends the form's room to the store, as an update of the
        edited room or as a new room; `reply` is the store's answer. On
        success the list takes the stored room and the form is reset; on
        failure nothing changes. */
    method HandleSubmit(reply: Reply<Room>) returns (request: RoomRequest)
      modifies this
      ensures request == if Editing(old(editingId))
                         then UpdateRoom(old(editingId).value, ToRoomData(old(formData)))
                         else CreateRoom(ToRoomData(old(formData)))
      ensures reply.Ok? && Editing(old(editingId)) ==>
                rooms == ReplaceRoom(old(rooms), old(editingId).value, reply.value)
      ensures reply.Ok? && !Editing(old(editingId)) ==> rooms == old(rooms) + [reply.value]
      ensures reply.Ok? ==> formData == EmptyForm && editingId == None && !showForm
      ensures reply.Err? ==>
                rooms == old(rooms) && formData == old(formData) &&
                editingId == old(editingId) && showForm == old(showForm)
      ensures loading == old(loading)
    {
      var roomData := ToRoomData(formData);
      if Editing(editingId) {
        request := UpdateRoom(editingId.value, roomData);
        if reply.Ok? {
          rooms := ReplaceRoom(rooms, editingId.value, reply.value);
        }
      } else {
        request := CreateRoom(roomData);
        if reply.Ok? {
          rooms := rooms + [reply.value];
        }
      }
      if reply.Ok? {
        ResetForm();
      }
    }

    /** handleDelete: asks for confirmation, then deletes the room in the
        store (`reply`) and drops it from the list. Returns whether the store
        was asked. */
    method HandleDelete(id: RoomId, confirmed: bool, reply: Reply<()>) returns (requested: bool)
      modifies this`rooms
      ensures requested == confirmed
      ensures rooms == if confirmed && reply.Ok? then RemoveRoom(old(rooms), id) else old(rooms)
    {
      requested := confirmed;
      if confirmed && reply.Ok? {
        rooms := RemoveRoom(rooms, id);
      }
    }
  }
}
