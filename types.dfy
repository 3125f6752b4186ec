/**
 * The record shapes and string unions shared by every screen. Each union of
 * string literals becomes a datatype with its wire text and a parser; the
 * parser's contract says that a string denotes a value of the union exactly
 * when it is that value's text, so each union is exactly its listed members.
 */
module Types {

  import opened Wrappers

  // ---------------------------------------------------------------- unions

  datatype EstablishmentType = Hairdresser | Cosmetologist | NailSalon | Spa | Barbershop

  function EstablishmentTypeText(t: EstablishmentType): string {
    match t
    case Hairdresser => "hairdresser"
    case Cosmetologist => "cosmetologist"
    case NailSalon => "nail_salon"
    case Spa => "spa"
    case Barbershop => "barbershop"
  }

  function ParseEstablishmentType(s: string): (r: Option<EstablishmentType>)
    ensures forall t :: r == Some(t) <==> EstablishmentTypeText(t) == s
  {
    if s == "hairdresser" then Some(Hairdresser)
    else if s == "cosmetologist" then Some(Cosmetologist)
    else if s == "nail_salon" then Some(NailSalon)
    else if s == "spa" then Some(Spa)
    else if s == "barbershop" then Some(Barbershop)
    else None
  }

  /** The four price tiers, cheapest first. */
  datatype PriceRange = Budget | Moderate | Expensive | VeryExpensive

  function PriceRangeText(p: PriceRange): string {
    match p
    case Budget => "$"
    case Moderate => "$$"
    case Expensive => "$$$"
    case VeryExpensive => "$$$$"
  }

  function ParsePriceRange(s: string): (r: Option<PriceRange>)
    ensures forall p :: r == Some(p) <==> PriceRangeText(p) == s
  {
    if s == "$" then Some(Budget)
    else if s == "$$" then Some(Moderate)
    else if s == "$$$" then Some(Expensive)
    else if s == "$$$$" then Some(VeryExpensive)
    else None
  }

  datatype BookingStatus = Pending | Confirmed | Cancelled | Completed

  function BookingStatusText(b: BookingStatus): string {
    match b
    case Pending => "pending"
    case Confirmed => "confirmed"
    case Cancelled => "cancelled"
    case Completed => "completed"
  }

  function ParseBookingStatus(s: string): (r: Option<BookingStatus>)
    ensures forall b :: r == Some(b) <==> BookingStatusText(b) == s
  {
    if s == "pending" then Some(Pending)
    else if s == "confirmed" then Some(Confirmed)
    else if s == "cancelled" then Some(Cancelled)
    else if s == "completed" then Some(Completed)
    else None
  }

  datatype MessageType = TextMessage | ImageMessage | FileMessage

  function MessageTypeText(m: MessageType): string {
    match m
    case TextMessage => "text"
    case ImageMessage => "image"
    case FileMessage => "file"
  }

  function ParseMessageType(s: string): (r: Option<MessageType>)
    ensures forall m :: r == Some(m) <==> MessageTypeText(m) == s
  {
    if s == "text" then Some(TextMessage)
    else if s == "image" then Some(ImageMessage)
    else if s == "file" then Some(FileMessage)
    else None
  }

  datatype SortOption = Distance | Rating | Price | Availability

  function SortOptionText(o: SortOption): string {
    match o
    case Distance => "distance"
    case Rating => "rating"
    case Price => "price"
    case Availability => "availability"
  }

  function ParseSortOption(s: string): (r: Option<SortOption>)
    ensures forall o :: r == Some(o) <==> SortOptionText(o) == s
  {
    if s == "distance" then Some(Distance)
    else if s == "rating" then Some(Rating)
    else if s == "price" then Some(Price)
    else if s == "availability" then Some(Availability)
    else None
  }

  datatype Language = En | Uk | Ru

  function LanguageText(l: Language): string {
    match l
    case En => "en"
    case Uk => "uk"
    case Ru => "ru"
  }

  function ParseLanguage(s: string): (r: Option<Language>)
    ensures forall l :: r == Some(l) <==> LanguageText(l) == s
  {
    if s == "en" then Some(En)
    else if s == "uk" then Some(Uk)
    else if s == "ru" then Some(Ru)
    else None
  }

  /**
   * The i18n locale chosen at start-up: the device language when the app has
   * translations for it, English otherwise.
   */
  function InitialLocale(deviceLanguage: Option<string>): (l: Language)
    ensures deviceLanguage.Some? && ParseLanguage(deviceLanguage.value).Some? ==>
              LanguageText(l) == deviceLanguage.value
    ensures (deviceLanguage.None? || ParseLanguage(deviceLanguage.value).None?) ==> l == En
  {
    match deviceLanguage
    case Some(code) => (match ParseLanguage(code) case Some(l) => l case None => En)
    case None => En
  }

  // ---------------------------------------------------------------- records

  datatype Service = Service(
    id: string,
    name: string,
    duration: int,          // minutes
    price: real,
    description: Option<string>,
    establishmentId: Option<string>,
    isActive: Option<bool>)

  datatype TimeSlot = TimeSlot(id: string, time: string, available: bool, date: string)

  /** An employee row; the database stamps `createdAt` (a timestamp) on insert. */
  datatype Employee = Employee(
    id: string,
    establishmentId: string,
    name: string,
    role: string,
    photoUrl: Option<string>,
    phone: Option<string>,
    email: Option<string>,
    bio: Option<string>,
    isActive: bool,
    createdAt: int,
    updatedAt: Option<int>)

  datatype Hours = Hours(open: string, close: string)

  /** Day key to opening hours; `None` means closed that day. */
  type OpeningHours = map<string, Option<Hours>>

  datatype Establishment = Establishment(
    id: string,
    name: string,
    kind: EstablishmentType,
    address: string,
    latitude: real,
    longitude: real,
    rating: real,
    reviewCount: int,
    priceRange: PriceRange,
    imageUrl: string,
    phone: string,
    services: seq<Service>,
    availableSlots: seq<TimeSlot>,
    openingHours: OpeningHours,
    distance: Option<real>,   // kilometres from the user, when known
    isFavorite: Option<bool>,
    ownerId: Option<string>,
    description: Option<string>,
    employees: Option<seq<Employee>>)

  datatype Booking = Booking(
    id: string,
    userId: string,
    establishmentId: string,
    employeeId: Option<string>,
    serviceId: string,
    bookingDate: string,
    bookingTime: string,
    duration: int,
    status: BookingStatus,
    notes: Option<string>,
    totalPrice: Option<real>)

  datatype Chat = Chat(id: string, userId: string, establishmentId: string, employeeId: string)

  datatype Message = Message(
    id: string,
    chatId: string,
    senderId: string,
    content: string,
    messageType: MessageType,
    isRead: bool)

  datatype UserProfile = UserProfile(
    firstName: string,
    lastName: string,
    age: Option<int>,
    city: string,
    photo: Option<string>,
    phone: Option<string>,
    email: Option<string>)

  datatype AppSettings = AppSettings(language: Language, themeColor: string)
}
