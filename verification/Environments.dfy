/** The two environments of a gateway credential (backend/apps/fbr/client.py, line 147). */
module Environments {

  datatype Environment = Sandbox | Production
}
