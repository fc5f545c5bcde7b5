/** What kind of evidence a raw record is. */
module RecordTypes {
  datatype RecordType = Conversation | Document | StateObject
}
