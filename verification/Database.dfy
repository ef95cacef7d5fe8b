/**
 The `Database` object. Each method is one transaction: it works on a copy of
 the tables and installs the copy when it commits, so that a failure on the way
 leaves the tables alone.
 */
module Databases {
  import opened Lines
  import opened Auth
  import opened Tables
  import opened TransactionLaws
  import Transactions = Tables

  class Database {
    var tables: Tables

    constructor (stored: Tables)
      ensures tables == stored
    {
      tables := stored;
    }

    /** Id sequences are not rolled back: a refused insert uses up an id. */
    method RegisterUser(login: string, password: string, hash: string, up: bool) returns (r: DbResult)
      requires Valid(tables)
      modifies this
      ensures RegisterMeans(old(tables), tables, r, login, password, hash, up)
      ensures (tables, r) == Transactions.RegisterUser(old(tables), login, password, hash, up)
    {
      RegisterLaw(tables, login, password, hash, up);
      if !IsValidLogin(login) {
        return DbResult(ValidationError, BadLogin, -1);
      }
      var strong := ValidatePassword(password);
      if !strong {
        return DbResult(ValidationError, if |password| < 10 then ShortPassword else WeakPassword, -1);
      }
      if !up {
        return FAILED;
      }
      var txn := tables;
      tables := tables.(nextUser := tables.nextUser + 1);
      if login in txn.ids {
        return DbResult(Duplicate, LoginExists, -1);
      }
      var id := txn.nextUser;
      txn := WithUser(txn, login, hash);
      txn := Audited(txn, id, Registered, login);
      tables := txn;
      return DbResult(Ok, RegisteredNow, id);
    }

    method LoginUser(login: string, passwordOk: bool, now: Timestamp, up: bool) returns (r: LoginResult)
      requires Valid(tables)
      modifies this
      ensures LoginMeans(old(tables), tables, r, login, passwordOk, now, up)
      ensures (tables, r) == Transactions.LoginUser(old(tables), login, passwordOk, now, up)
    {
      LoginLaw(tables, login, passwordOk, now, up);
      if !up {
        return LoginResult(Error, DatabaseError, -1, "", OrdinaryUser);
      }
      var txn := tables;
      if login !in txn.ids {
        return LoginResult(Unauthorized, BadCredentials, -1, "", OrdinaryUser);
      }
      var id := txn.ids[login];
      var row := txn.users[id];
      if row.status == Banned {
        return LoginResult(BannedStatus, UserIsBanned, id, login, row.role);
      }
      if !passwordOk {
        return LoginResult(Unauthorized, BadCredentials, -1, "", OrdinaryUser);
      }
      txn := WithStatus(txn, id, Online);
      txn := Seen(txn, id, now);
      txn := Audited(txn, id, LoggedIn, login);
      tables := txn;
      return LoginResult(Ok, LoginDone, id, login, row.role);
    }

    method LogoutUser(id: int, now: Timestamp, up: bool)
      requires Valid(tables)
      modifies this
      ensures LogoutMeans(old(tables), tables, id, now, up)
      ensures tables == Transactions.LogoutUser(old(tables), id, now, up)
    {
      LogoutLaw(tables, id, now, up);
      if up && id in tables.users && tables.users[id].status != Banned {
        var txn := WithStatus(tables, id, Offline);
        txn := Seen(txn, id, now);
        tables := txn;
      }
    }

    method SendMessage(sender: int, receiver: string, text: string, now: Timestamp, up: bool) returns (r: DbResult)
      requires Valid(tables)
      modifies this
      ensures SendMeans(old(tables), tables, r, sender, receiver, text, now, up)
      ensures (tables, r) == Transactions.SendMessage(old(tables), sender, receiver, text, now, up)
    {
      SendLaw(tables, sender, receiver, text, now, up);
      if |text| == 0 || |text| > 4096 {
        return DbResult(ValidationError, BadText, -1);
      }
      if !up {
        return FAILED;
      }
      if receiver !in tables.ids {
        return DbResult(NotFound, NoReceiver, -1);
      }
      var to := tables.ids[receiver];
      if tables.users[to].status == Banned {
        return DbResult(BannedStatus, ReceiverIsBanned, -1);
      }
      var id := tables.nextMessage;
      tables := tables.(nextMessage := id + 1);
      if sender !in tables.users || !StorableText(text) || id > MAX_INT {
        return FAILED;
      }
      tables := tables.(messages := tables.messages + [StoredMessage(id, sender, to, text, now)]);
      return DbResult(Ok, MessageStored, id);
    }

    method BanUser(actor: int, login: string, up: bool) returns (r: DbResult)
      requires Valid(tables)
      modifies this
      ensures BanMeans(old(tables), tables, r, actor, login, up)
      ensures (tables, r) == Transactions.BanUser(old(tables), actor, login, up)
    {
      BanLaw(tables, actor, login, up);
      if !up {
        return FAILED;
      }
      var txn := tables;
      if login !in txn.ids {
        return DbResult(NotFound, NoUser, -1);
      }
      var id := txn.ids[login];
      txn := WithStatus(txn, id, Banned);
      if !ActorExists(txn, actor) {
        return FAILED;
      }
      txn := Audited(txn, actor, BannedUser, login);
      tables := txn;
      return DbResult(Ok, BanDone, id);
    }

    method UnbanUser(actor: int, login: string, up: bool) returns (r: DbResult)
      requires Valid(tables)
      modifies this
      ensures UnbanMeans(old(tables), tables, r, actor, login, up)
      ensures (tables, r) == Transactions.UnbanUser(old(tables), actor, login, up)
    {
      UnbanLaw(tables, actor, login, up);
      if !up {
        return FAILED;
      }
      var txn := tables;
      if login !in txn.ids || txn.users[txn.ids[login]].status != Banned {
        return DbResult(NotFound, NoBannedUser, -1);
      }
      var id := txn.ids[login];
      txn := WithStatus(txn, id, Offline);
      if !ActorExists(txn, actor) {
        return FAILED;
      }
      txn := Audited(txn, actor, UnbannedUser, login);
      tables := txn;
      return DbResult(Ok, UnbanDone, id);
    }

    method KickUser(actor: int, login: string, now: Timestamp, up: bool) returns (r: DbResult)
      requires Valid(tables)
      modifies this
      ensures KickMeans(old(tables), tables, r, actor, login, now, up)
      ensures (tables, r) == Transactions.KickUser(old(tables), actor, login, now, up)
    {
      KickLaw(tables, actor, login, now, up);
      if !up {
        return FAILED;
      }
      var txn := tables;
      if login !in txn.ids || txn.users[txn.ids[login]].status == Banned {
        return DbResult(NotFound, NoActiveUser, -1);
      }
      var id := txn.ids[login];
      txn := WithStatus(txn, id, Offline);
      txn := Seen(txn, id, now);
      if !ActorExists(txn, actor) {
        return FAILED;
      }
      txn := Audited(txn, actor, KickedUser, login);
      tables := txn;
      return DbResult(Ok, KickDone, id);
    }
  }
}
