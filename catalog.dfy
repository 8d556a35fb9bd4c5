/** The value types the program receives from the external `nure_tools`
    catalog: lectures, the entities a schedule is asked for, and the request
    that names one of them.  Timestamps are whole minutes in the institution's
    one fixed time zone. */
module Catalog {

  datatype Subject = Subject(id: int, brief: string, title: string)

  /** One scheduled class; `startTime` and `endTime` are its period. */
  datatype Lecture = Lecture(
    numberPair: int,
    startTime: int,
    endTime: int,
    lectureType: string,
    lectureRoom: string,
    subject: Subject)

  /** The kinds of entity the catalog can be searched for. */
  datatype Entity =
    | Group(id: int, name: string)
    | Teacher(id: int, fullName: string, shortName: string)
    | LectureRoom(id: int, name: string)

  /** What a schedule is fetched for; the entity is named, the catalog's exact
      lookup of that name is outside the model. */
  datatype Request =
    | GroupRequest(name: string)
    | TeacherRequest(name: string)
    | LectureRoomRequest(name: string)
}
