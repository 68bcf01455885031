/** The habit entry every store, handler and client passes around: a name, a free-text
    note and the moment it was recorded, in Unix seconds. */
module Habits {

  datatype Habit = Habit(Name: string, Note: string, TimeStamp: int)
}
