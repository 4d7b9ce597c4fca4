/** The entities of the car-wash management app (types.ts). Timestamps, which the
    app keeps as ISO strings and compares through `Date.getTime()`, are integer
    milliseconds here; money amounts and percentages are exact reals. */
module Model {

  /** Milliseconds in one day: `1000 * 3600 * 24` and `1000 * 60 * 60 * 24` in the app. */
  const DAY_MS: int := 86400000

  datatype Option<T> = None | Some(value: T)

  /** `'admin' | 'user'`: the role of an account and the author of a ticket reply.
      A `'user'` account is a tenant, the owner of one car-wash business. */
  datatype Role = Admin | Tenant

  datatype SubscriptionStatus = Trial | Monthly | Quarterly | Yearly

  /** Open, replied and closed, under the names the app shows. */
  datatype TicketStatus = Aberto | Respondido | Finalizado

  datatype User = User(
    id: string,
    name: string,
    phone: string,
    email: string,
    password: string,
    role: Role,
    subscriptionStatus: SubscriptionStatus,
    installationDate: int,
    subscriptionEndDate: int)

  datatype Offer = Offer(id: string, name: string, discountPercentage: real)

  datatype Client = Client(id: string, name: string, phone: string, carModel: string, licensePlate: string)

  datatype Service = Service(id: string, name: string, price: real)

  datatype ServiceRecord = ServiceRecord(
    id: string,
    clientId: string,
    serviceIds: seq<string>,
    subtotal: real,
    discountAmount: real,
    totalValue: real,
    offerId: Option<string>,
    date: int)

  datatype TicketReply = TicketReply(author: Role, text: string, createdAt: int)

  datatype Ticket = Ticket(
    id: string,
    userId: string,
    userEmail: string,
    title: string,
    description: string,
    status: TicketStatus,
    createdAt: int,
    replies: seq<TicketReply>)
}
