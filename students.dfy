/** The student record as the student views use it: the fields they read and
    the ones `bulk_import` writes. Status is an open string because requests
    may carry any value; the views compare it with "Active" and "TC". */
module Students {
  import opened Common

  const StatusActive := "Active"
  const StatusTc := "TC"

  datatype Student = Student(
    id: nat,                          // primary key
    studentId: string,                // the school's own student number
    name: string,
    studentClass: string,
    contactNumber: string,
    status: string,
    hasTransport: bool,
    transportFeeHead: Option<nat>)    // id of the linked transport fee head

  function StudentPk(s: Student): nat { s.id }
}
