// Values shared by the modules of the escalation queue.

module QueueTypes {

  /** The position of a queue file name in the sort order of names (a timestamp, then a unique id). */
  type Name = nat

  type WriterId = nat

  type RequestId = nat

  /** An image path: unique per image written. */
  datatype Image = Image(writer: WriterId, attempt: nat)

  /** What a reader of the line can make of it: a garbled line does not parse, of an undated one only the time does not. */
  datatype Form = Proper | Undated | Garbled

  /** One queued escalation. `serial` is its position among the lines that its writer appended. */
  datatype Line = Line(writer: WriterId, serial: nat, request: RequestId, image: Image, queuedAt: nat, form: Form)

  const MAX_QUEUE_FILE_LINES: nat := 200
}
