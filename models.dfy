// Record types shared by the two stores and the command-line layer: the
// priority and status enumerations, the to-do item, and the flat record
// (one JSON object of todos.json) that an item is written as.

module Models {

  datatype Option<+T> = None | Some(value: T)

  /** Priority of a to-do item; its stored value is its name. */
  datatype Priority = HIGH | MID | LOW

  /** Status of a to-do item; its stored value is its name. */
  datatype Status = PENDING | COMPLETED

  datatype TodoItem = TodoItem(
    id: string,
    title: string,
    details: string,
    priority: Priority,
    status: Status,
    owner: string,
    createdAt: string,
    updatedAt: string)

  /** The stored form of an item: enumerations are written as their labels. */
  datatype Record = Record(
    id: string,
    title: string,
    details: string,
    priority: string,
    status: string,
    owner: string,
    createdAt: string,
    updatedAt: string)

  /** The label of a priority, which is both its member name and its value. */
  function PriorityLabel(p: Priority): string
  {
    match p
    case HIGH => "HIGH"
    case MID => "MID"
    case LOW => "LOW"
  }

  function StatusLabel(s: Status): string
  {
    match s
    case PENDING => "PENDING"
    case COMPLETED => "COMPLETED"
  }

  /** Enumeration lookup by label; None where Python raises. */
  function PriorityFromLabel(text: string): (r: Option<Priority>)
    ensures r.Some? ==> PriorityLabel(r.value) == text
    ensures r.None? ==> forall p: Priority :: PriorityLabel(p) != text
  {
    if text == "HIGH" then Some(HIGH)
    else if text == "MID" then Some(MID)
    else if text == "LOW" then Some(LOW)
    else None
  }

  function StatusFromLabel(text: string): (r: Option<Status>)
    ensures r.Some? ==> StatusLabel(r.value) == text
    ensures r.None? ==> forall s: Status :: StatusLabel(s) != text
  {
    if text == "PENDING" then Some(PENDING)
    else if text == "COMPLETED" then Some(COMPLETED)
    else None
  }

  /** The dict an item is saved as. */
  function ItemToRecord(item: TodoItem): (r: Record)
    ensures PriorityFromLabel(r.priority) == Some(item.priority)
    ensures StatusFromLabel(r.status) == Some(item.status)
  {
    Record(item.id, item.title, item.details,
           PriorityLabel(item.priority), StatusLabel(item.status),
           item.owner, item.createdAt, item.updatedAt)
  }

  /** The item a stored dict is read back as; None where a label is unknown. */
  function RecordToItem(rec: Record): (r: Option<TodoItem>)
    ensures r.Some? <==> PriorityFromLabel(rec.priority).Some? && StatusFromLabel(rec.status).Some?
    ensures r.Some? ==> PriorityLabel(r.value.priority) == rec.priority && StatusLabel(r.value.status) == rec.status
  {
    match (PriorityFromLabel(rec.priority), StatusFromLabel(rec.status))
    case (Some(p), Some(s)) =>
      Some(TodoItem(rec.id, rec.title, rec.details, p, s,
                    rec.owner, rec.createdAt, rec.updatedAt))
    case _ => None
  }

  /** Two priorities never share a label, so labels identify them. */
  lemma PriorityLabelInjective(p: Priority, q: Priority)
    requires PriorityLabel(p) == PriorityLabel(q)
    ensures p == q
  {
  }

  lemma StatusLabelInjective(s: Status, t: Status)
    requires StatusLabel(s) == StatusLabel(t)
    ensures s == t
  {
  }

  /** Saving an item and loading it back gives the same item. */
  lemma RecordRoundTrip(item: TodoItem)
    ensures RecordToItem(ItemToRecord(item)) == Some(item)
  {
  }

  /** Every record that loads is exactly the record its item saves as. */
  lemma RecordRoundTripBack(rec: Record, item: TodoItem)
    requires RecordToItem(rec) == Some(item)
    ensures ItemToRecord(item) == rec
  {
  }
}
