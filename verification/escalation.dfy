/**
 The access-request notification (app.py `send_access_request`): a message naming the
 user, their employee ID and the denied query is published to a fixed topic. Whether the
 publish call raises is an input.
 */
module Escalation {
  import opened Text

  const AccessRequestTopic: string := "arn:aws:sns:us-east-1:375756730751:RagAccessRequests"

  datatype Publication = Publication(topic: string, subject: string, message: string)

  /** What `send_access_request` reports, and the publication it attempted. */
  datatype AccessRequestResult = AccessRequestResult(sent: bool, attempted: Publication)

  /** The notification text; it names the requester, their employee ID and the query. */
  function AccessRequestMessage(username: string, employeeId: string, query: string): (m: string)
    ensures Contains(m, username) && Contains(m, employeeId) && Contains(m, query)
  {
    var tail := "\n\nAction: Review Clearance.";
    var m := "User: " + username + "\nID: " + employeeId + "\nQuery: " + query + tail;
    assert m == "User: " + username + ("\nID: " + employeeId + "\nQuery: " + query + tail);
    ContainsInfix("User: ", username, "\nID: " + employeeId + "\nQuery: " + query + tail);
    assert m == ("User: " + username + "\nID: ") + employeeId + ("\nQuery: " + query + tail);
    ContainsInfix("User: " + username + "\nID: ", employeeId, "\nQuery: " + query + tail);
    assert m == ("User: " + username + "\nID: " + employeeId + "\nQuery: ") + query + tail;
    ContainsInfix("User: " + username + "\nID: " + employeeId + "\nQuery: ", query, tail);
    m
  }

  /** `send_access_request`: True exactly when the publish did not raise. The message is
      built before the call, so it is the same either way. */
  function SendAccessRequest(username: string, employeeId: string, query: string, publishFails: bool): (r: AccessRequestResult)
    ensures r.sent <==> !publishFails
    ensures r.attempted.topic == AccessRequestTopic
    ensures Contains(r.attempted.message, username)
    ensures Contains(r.attempted.message, employeeId)
    ensures Contains(r.attempted.message, query)
    ensures Contains(r.attempted.subject, username)
  {
    var message := AccessRequestMessage(username, employeeId, query);
    ContainsInfix("RAG Access Request: ", username, []);
    assert "RAG Access Request: " + username + [] == "RAG Access Request: " + username;
    AccessRequestResult(!publishFails, Publication(AccessRequestTopic, "RAG Access Request: " + username, message))
  }
}
