/** The support-ticket handlers of `App` (App.tsx) over the one global ticket list:
    a tenant opens tickets and sees its own; the admin sets statuses and replies. */
module Tickets {
  import opened Model
  import Seqs
  import Sorting
  import Text

  function CreatedAtOf(t: Ticket): int {
    t.createdAt
  }

  /** The ticket `handleAddTicket` builds for the signed-in user. */
  function NewTicket(user: User, id: string, title: string, description: string, now: int): (t: Ticket)
    ensures t.status == Aberto && t.replies == []
    ensures t.userId == user.id && t.userEmail == user.email && t.createdAt == now
    ensures t.id == id && t.title == title && t.description == description
  {
    Ticket(id, user.id, user.email, title, description, Aberto, now, [])
  }

  /** `handleAddTicket`: append the new ticket, then sort the list newest first. */
  function AddTicket(tickets: seq<Ticket>, user: User, id: string, title: string,
                     description: string, now: int): (r: seq<Ticket>)
    ensures multiset(r) == multiset(tickets) + multiset{NewTicket(user, id, title, description, now)}
    ensures |r| == |tickets| + 1
    ensures Sorting.SortedDesc(r, CreatedAtOf)
  {
    var r := Sorting.SortDesc(tickets + [NewTicket(user, id, title, description, now)], CreatedAtOf);
    assert |r| == |multiset(r)|;
    r
  }

  /** On a newest-first list, a ticket opened later than all others goes to the front
      and the rest keep their places. */
  lemma AddTicketGoesFirst(tickets: seq<Ticket>, user: User, id: string, title: string, description: string, now: int)
    requires Sorting.SortedDesc(tickets, CreatedAtOf)
    requires forall i :: 0 <= i < |tickets| ==> tickets[i].createdAt < now
    ensures AddTicket(tickets, user, id, title, description, now)
         == [NewTicket(user, id, title, description, now)] + tickets
  {
    Sorting.SortAppendNewest(tickets, NewTicket(user, id, title, description, now), CreatedAtOf);
  }

  /** A ticket opened at the same instant as existing ones is placed after them: the
      tickets sharing that `createdAt` keep their list order, the new one last. */
  lemma AddTicketAfterTies(tickets: seq<Ticket>, user: User, id: string, title: string, description: string, now: int)
    ensures Seqs.Filter(AddTicket(tickets, user, id, title, description, now), Sorting.HasKey(CreatedAtOf, now))
         == Seqs.Filter(tickets, Sorting.HasKey(CreatedAtOf, now)) + [NewTicket(user, id, title, description, now)]
  {
    var t := NewTicket(user, id, title, description, now);
    var p := Sorting.HasKey(CreatedAtOf, now);
    assert p(t);
    Sorting.SortDescStable(tickets + [t], CreatedAtOf, now);
    Seqs.FilterAppend(tickets, [t], p);
    Seqs.FilterSingleton(t, p);
  }

  /** `t => t.userId === userId` */
  function OwnedBy(userId: string): Ticket -> bool {
    (t: Ticket) => t.userId == userId
  }

  /** `userTickets`: what a tenant sees on its help page. */
  function UserTickets(tickets: seq<Ticket>, userId: string): (r: seq<Ticket>)
    ensures forall t :: t in r <==> t in tickets && t.userId == userId
    ensures Seqs.IsSubsequence(r, tickets)
    ensures forall t :: multiset(r)[t] == if t.userId == userId then multiset(tickets)[t] else 0
  {
    Seqs.FilterMembership(tickets, OwnedBy(userId));
    Seqs.FilterMultiplicity(tickets, OwnedBy(userId));
    Seqs.FilterIsSubsequence(tickets, OwnedBy(userId));
    Seqs.Filter(tickets, OwnedBy(userId))
  }

  /** Opening a ticket adds it to its owner's view and leaves every other user's view
      with the same tickets. */
  lemma AddTicketVisibility(tickets: seq<Ticket>, user: User, id: string, title: string,
                            description: string, now: int, viewer: string)
    ensures var t := NewTicket(user, id, title, description, now);
            multiset(UserTickets(AddTicket(tickets, user, id, title, description, now), viewer))
            == if viewer == user.id then multiset(UserTickets(tickets, viewer)) + multiset{t}
               else multiset(UserTickets(tickets, viewer))
  {
    var t := NewTicket(user, id, title, description, now);
    var after := AddTicket(tickets, user, id, title, description, now);
    var p := OwnedBy(viewer);
    Seqs.FilterPermutation(after, tickets + [t], p);
    Seqs.FilterAppend(tickets, [t], p);
    Seqs.FilterSingleton(t, p);
  }

  /** `t => t.id === ticketId ? { ...t, status } : t` */
  function WithStatus(ticketId: string, status: TicketStatus): Ticket -> Ticket {
    (t: Ticket) => if t.id == ticketId then t.(status := status) else t
  }

  /** `handleUpdateTicketStatus`: the admin's manual override. Any status may be set
      from any status. */
  function UpdateTicketStatus(tickets: seq<Ticket>, ticketId: string, status: TicketStatus): (r: seq<Ticket>)
    ensures |r| == |tickets|
    ensures forall i :: 0 <= i < |tickets| && tickets[i].id == ticketId ==> r[i] == tickets[i].(status := status)
    ensures forall i :: 0 <= i < |tickets| && tickets[i].id != ticketId ==> r[i] == tickets[i]
  {
    Seqs.MapSeq(tickets, WithStatus(ticketId, status))
  }

  /** Setting the status twice leaves the second value, as if only it had been set. */
  lemma StatusLastWriteWins(tickets: seq<Ticket>, ticketId: string, first: TicketStatus, second: TicketStatus)
    ensures UpdateTicketStatus(UpdateTicketStatus(tickets, ticketId, first), ticketId, second)
         == UpdateTicketStatus(tickets, ticketId, second)
  {
  }

  /** Changing a status moves no ticket between users' views: each view is updated
      in place. */
  lemma UserTicketsAfterStatusUpdate(tickets: seq<Ticket>, ticketId: string, status: TicketStatus, viewer: string)
    ensures UserTickets(UpdateTicketStatus(tickets, ticketId, status), viewer)
         == UpdateTicketStatus(UserTickets(tickets, viewer), ticketId, status)
  {
    Seqs.FilterMapCommute(tickets, WithStatus(ticketId, status), OwnedBy(viewer));
  }

  /** The reply the admin's answer appends, with `author: 'admin'`. */
  function AdminReply(replyText: string, now: int): TicketReply {
    TicketReply(Admin, replyText, now)
  }

  /** The `map` callback of `handleReplyToTicket`. */
  function WithAdminReply(ticketId: string, replyText: string, now: int): Ticket -> Ticket {
    (t: Ticket) =>
      if t.id == ticketId then t.(status := Respondido, replies := t.replies + [AdminReply(replyText, now)])
      else t
  }

  /** `handleReplyToTicket`: the answered ticket gains exactly one admin reply at the
      end of its thread and becomes `Respondido`, whatever its status was. */
  function ReplyToTicket(tickets: seq<Ticket>, ticketId: string, replyText: string, now: int): (r: seq<Ticket>)
    ensures |r| == |tickets|
    ensures forall i :: 0 <= i < |tickets| && tickets[i].id == ticketId ==>
              && r[i].status == Respondido
              && |r[i].replies| == |tickets[i].replies| + 1
              && r[i].replies[..|tickets[i].replies|] == tickets[i].replies
              && r[i].replies[|tickets[i].replies|] == TicketReply(Admin, replyText, now)
              && r[i] == tickets[i].(status := r[i].status, replies := r[i].replies)
    ensures forall i :: 0 <= i < |tickets| && tickets[i].id != ticketId ==> r[i] == tickets[i]
  {
    Seqs.MapSeq(tickets, WithAdminReply(ticketId, replyText, now))
  }

  /** Replying moves no ticket between users' views either. */
  lemma UserTicketsAfterReply(tickets: seq<Ticket>, ticketId: string, replyText: string, now: int, viewer: string)
    ensures UserTickets(ReplyToTicket(tickets, ticketId, replyText, now), viewer)
         == ReplyToTicket(UserTickets(tickets, viewer), ticketId, replyText, now)
  {
    Seqs.FilterMapCommute(tickets, WithAdminReply(ticketId, replyText, now), OwnedBy(viewer));
  }

  /** `AdminTicketDetailModal.handleReply`: a reply is only sent when its trimmed
      text is not empty, so a text of nothing but spaces, tabs or line breaks changes
      no ticket; a text with any other character is sent untrimmed. */
  function SubmitAdminReply(tickets: seq<Ticket>, ticketId: string, replyText: string, now: int): (r: seq<Ticket>)
    ensures (forall i :: 0 <= i < |replyText| ==> Text.IsWhitespace(replyText[i])) ==> r == tickets
    ensures (exists i :: 0 <= i < |replyText| && !Text.IsWhitespace(replyText[i]))
            ==> r == ReplyToTicket(tickets, ticketId, replyText, now)
  {
    Text.TrimEmptyIff(replyText);
    if Text.Trim(replyText) != [] then ReplyToTicket(tickets, ticketId, replyText, now) else tickets
  }

  /** A ticket's life: opened `Aberto` with no replies, answered by the admin
      (`Respondido`, one reply), then closed by hand (`Finalizado`, the reply kept). */
  lemma TicketLifecycle(user: User, id: string, title: string, description: string,
                        openedAt: int, answer: string, answeredAt: int)
    ensures var created := AddTicket([], user, id, title, description, openedAt);
            var answered := ReplyToTicket(created, id, answer, answeredAt);
            var closed := UpdateTicketStatus(answered, id, Finalizado);
            && created == [NewTicket(user, id, title, description, openedAt)]
            && answered[0].status == Respondido && answered[0].replies == [AdminReply(answer, answeredAt)]
            && closed[0].status == Finalizado && closed[0].replies == answered[0].replies
  {
    AddTicketGoesFirst([], user, id, title, description, openedAt);
  }
}
