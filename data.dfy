/** The app's shared records (package com.example.allinone.data). Instants are
    milliseconds, as in Dates. */
module Data {
  import opened Wrappers

  /** A calendar entry; `kind` is the `type` field ("Event", "Lesson", ...). */
  datatype Event = Event(id: int, title: string, description: Option<string>, date: int, kind: string)

  /** A weekly lesson slot. */
  datatype WTLesson = WTLesson(id: int, dayOfWeek: int, startHour: int, startMinute: int,
                               endHour: int, endMinute: int)

  /** A student, with the contact fields the student screens read. */
  datatype WTStudent = WTStudent(id: int, name: string, phoneNumber: Option<string>,
                                 email: Option<string>)

  /** A money movement; amounts are real numbers rather than doubles. */
  datatype Transaction = Transaction(id: int, amount: real, kind: string,
                                     description: Option<string>, isIncome: bool,
                                     date: int, category: string)

  /** A to-do item. */
  datatype Task = Task(id: int, description: string, completed: bool, date: int)
}
