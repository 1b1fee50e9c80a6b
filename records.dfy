/** The documents of the ticketing back office as the admin views and the store see
    them: customers, cinemas, events, reviews and the user accounts that log in.
    Numbers are integers; dates are kept as the strings the store holds. */
module Records {
  import opened Wrappers

  /** A file picked in a form: only its name and MIME type matter here. */
  datatype File = File(name: string, mimeType: string)

  /** A cinema's image: the URL stored in a document, or a newly picked file. */
  datatype Image = Url(url: string) | Picked(file: File)

  /** A customer's age is a number, or a string in documents imported as text. */
  datatype Age = AgeNumber(years: int) | AgeText(text: string)

  datatype Customer = Customer(
    id: string, kind: string, name: string, age: Age, image: string,
    city: string, dateJoin: string, totalSpent: int)

  /** The values of the new-customer form, with the picked image file. */
  datatype NewCustomer = NewCustomer(
    kind: string, name: string, age: Age, image: File,
    city: string, dateJoin: string, totalSpent: int)

  datatype Cinema = Cinema(
    id: string, kind: string, name: string, location: string, capacity: int,
    image: Image, executivePrice: int, premierPrice: int, classicPrice: int)

  /** The values of the new-cinema form. */
  datatype NewCinema = NewCinema(
    id: Option<string>, kind: string, name: string, location: string, capacity: int,
    image: File)

  /** A reference from an event to its cinema document. */
  datatype Reference = Reference(kind: string, ref: string)

  datatype Event = Event(
    id: string, kind: string, title: string, dateTime: string, cinema: Reference,
    description: string)

  datatype Review = Review(
    id: Option<string>, kind: string, userId: string, name: string, rating: int,
    message: string, eventName: string, cinemaRef: string)

  datatype Role = Admin | Preview

  /** A user account document: the password is a bcrypt hash. */
  datatype Account = Account(id: string, username: string, password: string, role: Role)
}
